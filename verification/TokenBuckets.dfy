/**
 Token buckets on values: what the memory store (store/memory.go, `ConsumeToken`) and the Redis script
 (store/redis.go, `luaConsumeToken`) do to one key, and what follows for every sequence of calls.
 Tokens are real numbers; rounding of floating-point arithmetic is not modelled.
 */
module TokenBuckets {
  import opened Basics

  datatype Rule = Rule(rate: real, burst: int, ttl: Time) {
    predicate Valid() {
      rate > 0.0 && burst > 0 && ttl > 0
    }

    /** An idle bucket is full again by the time it expires. */
    predicate Saturates() {
      Valid() && Gain(rate, ttl) >= burst as real
    }
  }

  datatype Bucket = Bucket(tokens: real, updatedAt: Time, expiresAt: Time)

  /** Tokens that flow in during `elapsed`; the rate is per second. */
  function Gain(rate: real, elapsed: Time): real {
    (elapsed as real / 1_000_000_000.0) * rate
  }

  function Min(a: real, b: real): real { if a < b then a else b }

  function Ceil(x: real): int { -((-x).Floor) }

  /** The bucket a call at `now` finds: new or expired means full, otherwise refilled lazily. */
  function Refilled(rule: Rule, b: Option<Bucket>, now: Time): Bucket {
    if b.None? || now >= b.value.expiresAt then Bucket(rule.burst as real, now, now + rule.ttl)
    else if now - b.value.updatedAt > 0 then
      Bucket(Min(rule.burst as real, b.value.tokens + Gain(rule.rate, now - b.value.updatedAt)), now, now + rule.ttl)
    else b.value.(expiresAt := now + rule.ttl)
  }

  /** One call: the bucket it leaves, and whether it is admitted. */
  function Consume(rule: Rule, b: Option<Bucket>, cost: int, now: Time): (Bucket, bool) {
    var r := Refilled(rule, b, now);
    if r.tokens >= cost as real then (r.(tokens := r.tokens - cost as real), true) else (r, false)
  }

  const MAX_WAIT_SECONDS: int := 9_223_372_036

  /** The advertised wait of a denied call, in whole seconds. */
  function WaitSeconds(rule: Rule, tokens: real, cost: int): int
    requires rule.Valid()
  {
    var seconds := Ceil((cost as real - tokens) / rule.rate);
    if seconds < 0 then 0 else if seconds > MAX_WAIT_SECONDS then MAX_WAIT_SECONDS else seconds
  }

  // ---- arithmetic ------------------------------------------------------------------------------

  lemma GainAdds(rate: real, a: Time, b: Time)
    ensures Gain(rate, a + b) == Gain(rate, a) + Gain(rate, b)
  {
    assert (a + b) as real == a as real + b as real;
    Distribute(a as real / 1_000_000_000.0, b as real / 1_000_000_000.0, rate);
  }

  lemma Distribute(x: real, y: real, rate: real)
    ensures (x + y) * rate == x * rate + y * rate
  {
  }

  lemma GainGrows(rate: real, a: Time, b: Time)
    requires rate >= 0.0 && a <= b
    ensures Gain(rate, a) <= Gain(rate, b)
  {
    GainAdds(rate, a, b - a);
    ProductNonNegative((b - a) as real / 1_000_000_000.0, rate);
  }

  lemma ProductNonNegative(x: real, y: real)
    requires x >= 0.0 && y >= 0.0
    ensures x * y >= 0.0
  {
  }

  // ---- the level of a bucket -------------------------------------------------------------------

  /** What a bucket holds at `t`, as if it never expired. */
  function Level(rule: Rule, b: Option<Bucket>, t: Time): real {
    if b.None? then rule.burst as real
    else Min(rule.burst as real, b.value.tokens + Gain(rule.rate, t - b.value.updatedAt))
  }

  /** A bucket last touched no later than `now`, on a clock that never goes back. */
  predicate Kept(rule: Rule, b: Option<Bucket>, now: Time) {
    b.Some? ==>
      && 0.0 <= b.value.tokens <= rule.burst as real
      && b.value.updatedAt <= now
      && b.value.expiresAt == b.value.updatedAt + rule.ttl
  }

  /** Expiry resets a bucket to what refilling would have made it. */
  lemma ExpiryIsRefill(rule: Rule, b: Option<Bucket>, now: Time)
    requires rule.Saturates() && Kept(rule, b, now)
    ensures Refilled(rule, b, now).tokens == Level(rule, b, now)
    ensures Kept(rule, Some(Refilled(rule, b, now)), now)
    ensures Level(rule, Some(Refilled(rule, b, now)), now) == Level(rule, b, now)
  {
    if b.Some? {
      GainGrows(rule.rate, 0, now - b.value.updatedAt);
      if now >= b.value.expiresAt {
        GainGrows(rule.rate, rule.ttl, now - b.value.updatedAt);
      }
    }
  }

  /** Refilling in one go or in two comes to the same. */
  lemma RefillComposes(rule: Rule, b: Option<Bucket>, early: Time, late: Time)
    requires rule.Valid() && Kept(rule, b, early) && early <= late
    ensures Level(rule, b, late) == Min(rule.burst as real, Level(rule, b, early) + Gain(rule.rate, late - early))
  {
    GainGrows(rule.rate, 0, late - early);
    if b.Some? {
      GainAdds(rule.rate, early - b.value.updatedAt, late - early);
    }
  }

  /** A call is admitted exactly when the level covers its cost, which it then loses. */
  lemma ConsumeByLevel(rule: Rule, b: Option<Bucket>, cost: int, now: Time)
    requires rule.Saturates() && Kept(rule, b, now) && cost > 0
    ensures var (after, ok) := Consume(rule, b, cost, now);
      && (ok <==> Level(rule, b, now) >= cost as real)
      && Kept(rule, Some(after), now)
      && Level(rule, Some(after), now) == Level(rule, b, now) - (if ok then cost as real else 0.0)
  {
    ExpiryIsRefill(rule, b, now);
  }

  // ---- sequences of calls ----------------------------------------------------------------------

  datatype Call = Call(cost: int, at: Time)

  /** Positive costs, on a clock that starts at `from` and never goes back. */
  predicate Ordered(calls: seq<Call>, from: Time) {
    calls == [] || (calls[0].cost > 0 && from <= calls[0].at && Ordered(calls[1..], calls[0].at))
  }

  /** Which calls are admitted. */
  function Decisions(rule: Rule, b: Option<Bucket>, calls: seq<Call>): seq<bool>
    decreases |calls|
  {
    if calls == [] then []
    else
      var (after, ok) := Consume(rule, b, calls[0].cost, calls[0].at);
      [ok] + Decisions(rule, Some(after), calls[1..])
  }

  /** The bucket after all calls. */
  function Final(rule: Rule, b: Option<Bucket>, calls: seq<Call>): Option<Bucket>
    decreases |calls|
  {
    if calls == [] then b else Final(rule, Some(Consume(rule, b, calls[0].cost, calls[0].at).0), calls[1..])
  }

  /** The total cost admitted between `s` and `t`, both included. */
  function Spent(rule: Rule, b: Option<Bucket>, calls: seq<Call>, s: Time, t: Time): int
    decreases |calls|
  {
    if calls == [] then 0
    else
      var (after, ok) := Consume(rule, b, calls[0].cost, calls[0].at);
      (if ok && s <= calls[0].at <= t then calls[0].cost else 0) + Spent(rule, Some(after), calls[1..], s, t)
  }

  lemma {:induction false} NothingSpentLater(rule: Rule, b: Option<Bucket>, calls: seq<Call>, s: Time, t: Time,
                                             from: Time)
    requires Ordered(calls, from) && t < from
    ensures Spent(rule, b, calls, s, t) == 0
    decreases |calls|
  {
    if calls != [] {
      NothingSpentLater(rule, Some(Consume(rule, b, calls[0].cost, calls[0].at).0), calls[1..], s, t, calls[0].at);
    }
  }

  /** From `from` on, no more can be spent than the level then and what flows in since. */
  lemma {:induction false} SpentIsFunded(rule: Rule, b: Option<Bucket>, calls: seq<Call>, from: Time, s: Time, t: Time)
    requires rule.Saturates() && Kept(rule, b, from) && Ordered(calls, from) && s <= from <= t
    ensures Spent(rule, b, calls, s, t) as real <= Level(rule, b, from) + Gain(rule.rate, t - from)
    decreases |calls|
  {
    GainGrows(rule.rate, 0, t - from);
    ConsumeByLevel(rule, b, 1, from);
    if calls != [] {
      var (at, cost) := (calls[0].at, calls[0].cost);
      RefillComposes(rule, b, from, at);
      ConsumeByLevel(rule, b, cost, at);
      var (after, ok) := Consume(rule, b, cost, at);
      if at <= t {
        SpentIsFunded(rule, Some(after), calls[1..], at, s, t);
        GainAdds(rule.rate, at - from, t - at);
      } else {
        NothingSpentLater(rule, Some(after), calls[1..], s, t, at);
      }
    }
  }

  /**
   The window bound: in any interval, a key admits calls of total cost at most `burst` plus what flows
   in during the interval.
   */
  lemma {:induction false} WindowBound(rule: Rule, b: Option<Bucket>, calls: seq<Call>, from: Time, s: Time, t: Time)
    requires rule.Saturates() && Kept(rule, b, from) && Ordered(calls, from) && s <= t
    ensures Spent(rule, b, calls, s, t) as real <= rule.burst as real + Gain(rule.rate, t - s)
    decreases |calls|
  {
    GainGrows(rule.rate, 0, t - s);
    if calls != [] {
      var (at, cost) := (calls[0].at, calls[0].cost);
      var (after, ok) := Consume(rule, b, cost, at);
      if at < s {
        ConsumeByLevel(rule, b, cost, at);
        WindowBound(rule, Some(after), calls[1..], at, s, t);
      } else if at <= t {
        SpentIsFunded(rule, b, calls, at, s, t);
        GainGrows(rule.rate, t - at, t - s);
      } else {
        NothingSpentLater(rule, Some(after), calls[1..], s, t, at);
      }
    }
  }

  /** A bucket that would not fill before it expires breaks the bound: two bursts, one lifetime apart. */
  lemma SaturationIsNeeded(rule: Rule)
    requires rule.Valid() && !rule.Saturates()
    ensures var calls := [Call(rule.burst, 0), Call(rule.burst, rule.ttl)];
      && Ordered(calls, 0)
      && Spent(rule, None, calls, 0, rule.ttl) as real > rule.burst as real + Gain(rule.rate, rule.ttl)
  {
    var calls := [Call(rule.burst, 0), Call(rule.burst, rule.ttl)];
    var (after, ok) := Consume(rule, None, rule.burst, 0);
    assert ok && after.expiresAt == rule.ttl;
    assert calls[1..] == [Call(rule.burst, rule.ttl)];
    assert Spent(rule, Some(after), calls[1..], 0, rule.ttl) == rule.burst;
  }

  // ---- what does not matter --------------------------------------------------------------------

  /** The janitor's view of one bucket. */
  function Swept(b: Option<Bucket>, now: Time): Option<Bucket> {
    if b.Some? && now >= b.value.expiresAt then None else b
  }

  /** No call can tell whether the janitor has been. */
  lemma JanitorIsInvisible(rule: Rule, b: Option<Bucket>, swept: Time, cost: int, now: Time)
    requires swept <= now
    ensures Consume(rule, Swept(b, swept), cost, now) == Consume(rule, b, cost, now)
  {
  }

  /** Two buckets at the same level now are indistinguishable from now on. */
  lemma {:induction false} LevelIsAllThatMatters(rule: Rule, a: Option<Bucket>, b: Option<Bucket>, calls: seq<Call>,
                                                 from: Time)
    requires rule.Saturates() && Kept(rule, a, from) && Kept(rule, b, from) && Ordered(calls, from)
    requires Level(rule, a, from) == Level(rule, b, from)
    ensures Decisions(rule, a, calls) == Decisions(rule, b, calls)
    decreases |calls|
  {
    if calls != [] {
      var (cost, at) := (calls[0].cost, calls[0].at);
      RefillComposes(rule, a, from, at);
      RefillComposes(rule, b, from, at);
      ConsumeByLevel(rule, a, cost, at);
      ConsumeByLevel(rule, b, cost, at);
      var (nextA, nextB) := (Consume(rule, a, cost, at).0, Consume(rule, b, cost, at).0);
      LevelIsAllThatMatters(rule, Some(nextA), Some(nextB), calls[1..], at);
    }
  }

  /** A denied call changes no later decision. */
  lemma DeniedCallsAreInvisible(rule: Rule, b: Option<Bucket>, denied: Call, calls: seq<Call>, from: Time)
    requires rule.Saturates() && Kept(rule, b, from) && Ordered([denied] + calls, from)
    requires !Consume(rule, b, denied.cost, denied.at).1
    ensures Decisions(rule, b, [denied] + calls) == [false] + Decisions(rule, b, calls)
  {
    var (cost, at) := (denied.cost, denied.at);
    assert ([denied] + calls)[1..] == calls;
    ConsumeByLevel(rule, b, cost, at);
    LevelIsAllThatMatters(rule, Some(Consume(rule, b, cost, at).0), b, calls, at);
  }

  // ---- the advertised wait ---------------------------------------------------------------------

  lemma CeilIsLeast(x: real, n: int)
    ensures x <= Ceil(x) as real < x + 1.0
    ensures n >= Ceil(x) <==> n as real >= x
  {
    var f := (-x).Floor;
    assert f as real <= -x < f as real + 1.0;
    if n as real >= x {
      assert (-n) as real <= -x;
      assert -n <= f;
    }
  }

  lemma WholeSeconds(rate: real, k: int)
    ensures Gain(rate, k * SECOND) == k as real * rate
  {
    assert (k * SECOND) as real == k as real * 1_000_000_000.0;
  }

  lemma RateTimes(rate: real, x: real, missing: real)
    requires rate > 0.0
    ensures x >= missing / rate <==> x * rate >= missing
  {
    assert missing == (missing / rate) * rate;
    if x >= missing / rate {
      ProductNonNegative(x - missing / rate, rate);
      Distribute(x - missing / rate, missing / rate, rate);
    } else {
      ProductPositive(missing / rate - x, rate);
      Distribute(missing / rate - x, x, rate);
    }
  }

  lemma ProductPositive(x: real, y: real)
    requires x > 0.0 && y > 0.0
    ensures x * y > 0.0
  {
  }

  /**
   A denied caller whose cost fits the burst and who returns after whole seconds is admitted exactly when
   the advertised wait is over, unless that wait was capped.
   */
  lemma WaitIsExact(rule: Rule, b: Option<Bucket>, cost: int, now: Time, seconds: nat)
    requires rule.Saturates() && Kept(rule, b, now) && 0 < cost <= rule.burst
    requires !Consume(rule, b, cost, now).1
    requires WaitSeconds(rule, Consume(rule, b, cost, now).0.tokens, cost) < MAX_WAIT_SECONDS
    ensures var denied := Consume(rule, b, cost, now).0;
      Consume(rule, Some(denied), cost, now + seconds * SECOND).1 <==> seconds >= WaitSeconds(rule, denied.tokens, cost)
  {
    var denied := Consume(rule, b, cost, now).0;
    ConsumeByLevel(rule, b, cost, now);
    ConsumeByLevel(rule, Some(denied), cost, now + seconds * SECOND);
    ExpiryIsRefill(rule, b, now);
    assert denied.updatedAt == now;
    WaitMeets(rule, denied.tokens, cost, seconds);
  }

  /** After so many seconds the missing tokens have flowed in exactly when the advertised wait is over. */
  lemma WaitMeets(rule: Rule, tokens: real, cost: int, seconds: nat)
    requires rule.Valid() && tokens < cost as real && WaitSeconds(rule, tokens, cost) < MAX_WAIT_SECONDS
    ensures tokens + Gain(rule.rate, seconds * SECOND) >= cost as real <==> seconds >= WaitSeconds(rule, tokens, cost)
  {
    var missing := cost as real - tokens;
    WholeSeconds(rule.rate, seconds);
    CeilIsLeast(missing / rule.rate, seconds);
    RateTimes(rule.rate, seconds as real, missing);
    RateTimes(rule.rate, 0.0, missing);
  }

  /** The advertised wait is the least number of seconds that bring in what is missing, but never above the cap. */
  lemma WaitIsLeast(rule: Rule, tokens: real, cost: int, n: int)
    requires rule.Valid() && tokens < cost as real && 0 < n <= 9_223_372_036
    ensures 0 < WaitSeconds(rule, tokens, cost) <= 9_223_372_036
    ensures WaitSeconds(rule, tokens, cost) >= n <==> cost as real - tokens > (n - 1) as real * rule.rate
  {
    var missing := cost as real - tokens;
    CeilIsLeast(missing / rule.rate, n - 1);
    RateTimes(rule.rate, (n - 1) as real, missing);
    RateTimes(rule.rate, 0.0, missing);
    CeilIsLeast(missing / rule.rate, 0);
  }

  /** What a call finds, for any rule: a full bucket if there is none or it has expired, else what flowed in. */
  lemma ConsumeByHolding(rule: Rule, b: Option<Bucket>, cost: int, now: Time)
    requires rule.Valid() && Kept(rule, b, now)
    ensures var held := if b.Some? && now < b.value.expiresAt then Level(rule, b, now) else rule.burst as real;
      var (after, ok) := Consume(rule, b, cost, now);
      && (ok <==> held >= cost as real)
      && after == Bucket(if ok then held - cost as real else held, now, now + rule.ttl)
  {
    if b.Some? {
      GainGrows(rule.rate, 0, now - b.value.updatedAt);
    }
  }

  /** Even if an idle bucket would not fill before it expires, nobody waits in vain. */
  lemma WaitIsEnough(rule: Rule, b: Option<Bucket>, cost: int, now: Time, later: Time)
    requires rule.Valid() && Kept(rule, b, now) && 0 < cost <= rule.burst
    requires !Consume(rule, b, cost, now).1
    requires var wait := WaitSeconds(rule, Consume(rule, b, cost, now).0.tokens, cost);
      wait < MAX_WAIT_SECONDS && now + wait * SECOND <= later
    ensures Consume(rule, Some(Consume(rule, b, cost, now).0), cost, later).1
  {
    var denied := Consume(rule, b, cost, now).0;
    var missing := cost as real - denied.tokens;
    var wait := WaitSeconds(rule, denied.tokens, cost);
    assert denied.updatedAt == now;
    CeilIsLeast(missing / rule.rate, wait);
    RateTimes(rule.rate, wait as real, missing);
    WholeSeconds(rule.rate, wait);
    GainGrows(rule.rate, wait * SECOND, later - now);
  }

  // ---- the Redis script ------------------------------------------------------------------------

  /** The stored string, decoded, and the time Redis drops it; times in milliseconds. */
  datatype Record = Record(tokens: real, updated: int, dropAt: int)

  /** What the script finds in the bucket. */
  function ScriptTokens(rule: Rule, raw: Option<Record>, now: int): real {
    var found := raw.Some? && now < raw.value.dropAt;
    var had := if found then raw.value.tokens else rule.burst as real;
    var updated := if found then raw.value.updated else now;
    var elapsed := (if now - updated > 0 then now - updated else 0) as real / 1000.0;
    Min(rule.burst as real, had + elapsed * rule.rate)
  }

  /** `luaConsumeToken`: the new record, whether the call is allowed, and the retry in milliseconds. */
  function Script(rule: Rule, raw: Option<Record>, cost: int, now: int): (Record, bool, int)
    requires rule.Valid()
  {
    var tokens := ScriptTokens(rule, raw, now);
    var ttl := rule.ttl / MILLISECOND;
    var dropAt := now + if ttl <= 0 then 1 else ttl;
    if tokens >= cost as real then (Record(tokens - cost as real, now, dropAt), true, 0)
    else (Record(tokens, now, dropAt), false, Ceil(((cost as real - tokens) / rule.rate) * 1000.0))
  }

  /** The record and the bucket say the same. */
  predicate Same(raw: Option<Record>, b: Option<Bucket>) {
    match (raw, b)
    case (None, None) => true
    case (Some(r), Some(k)) =>
      r.tokens == k.tokens && r.updated * MILLISECOND == k.updatedAt && r.dropAt * MILLISECOND == k.expiresAt
    case _ => false
  }

  lemma MillisecondGain(rate: real, ms: int)
    ensures Gain(rate, ms * MILLISECOND) == (ms as real / 1000.0) * rate
  {
    assert (ms * MILLISECOND) as real / 1_000_000_000.0 == ms as real / 1000.0;
  }

  lemma TokensAgree(rule: Rule, raw: Option<Record>, b: Option<Bucket>, now: int)
    requires rule.Valid() && Same(raw, b)
    requires b.Some? ==> b.value.tokens <= rule.burst as real
    ensures ScriptTokens(rule, raw, now) == Refilled(rule, b, now * MILLISECOND).tokens
  {
    if raw.Some? && now < raw.value.dropAt {
      var elapsed := now - raw.value.updated;
      assert elapsed * MILLISECOND == now * MILLISECOND - b.value.updatedAt;
      MillisecondGain(rule.rate, elapsed);
    }
  }

  /** On whole milliseconds and a clock that does not go back, both stores answer and end alike. */
  lemma ScriptAgrees(rule: Rule, raw: Option<Record>, b: Option<Bucket>, cost: int, now: int)
    requires rule.Valid() && rule.ttl % MILLISECOND == 0 && Same(raw, b) && cost > 0
    requires b.Some? ==> b.value.tokens <= rule.burst as real && b.value.updatedAt <= now * MILLISECOND
    ensures var (r, allowed, _) := Script(rule, raw, cost, now);
      var (k, ok) := Consume(rule, b, cost, now * MILLISECOND);
      allowed == ok && Same(Some(r), Some(k)) && k.tokens <= rule.burst as real && k.updatedAt == now * MILLISECOND
  {
    TokensAgree(rule, raw, b, now);
    assert rule.ttl == (rule.ttl / MILLISECOND) * MILLISECOND;
  }

  /**
   When the clock has gone back behind the last call, the script rewinds its record and the memory store
   does not: they still say the same exactly if it has not, or the bucket has expired.
   */
  lemma ScriptAgreesIffClockKeepsUp(rule: Rule, raw: Option<Record>, b: Option<Bucket>, cost: int, now: int)
    requires rule.Valid() && rule.ttl % MILLISECOND == 0 && Same(raw, b) && b.Some?
    requires cost > 0 && b.value.tokens <= rule.burst as real
    ensures var (r, allowed, _) := Script(rule, raw, cost, now);
      var (k, ok) := Consume(rule, b, cost, now * MILLISECOND);
      allowed == ok && (Same(Some(r), Some(k)) <==>
        b.value.updatedAt <= now * MILLISECOND || b.value.expiresAt <= now * MILLISECOND)
  {
    TokensAgree(rule, raw, b, now);
    assert rule.ttl == (rule.ttl / MILLISECOND) * MILLISECOND;
  }

  /** Decisions of the script for the same calls, given in milliseconds. */
  function ScriptDecisions(rule: Rule, raw: Option<Record>, calls: seq<Call>): seq<bool>
    requires rule.Valid()
    decreases |calls|
  {
    if calls == [] then []
    else
      var (after, ok, _) := Script(rule, raw, calls[0].cost, calls[0].at);
      [ok] + ScriptDecisions(rule, Some(after), calls[1..])
  }

  /** The record after all calls. */
  function ScriptFinal(rule: Rule, raw: Option<Record>, calls: seq<Call>): Option<Record>
    requires rule.Valid()
    decreases |calls|
  {
    if calls == [] then raw
    else ScriptFinal(rule, Some(Script(rule, raw, calls[0].cost, calls[0].at).0), calls[1..])
  }

  function InNanoseconds(calls: seq<Call>): seq<Call> {
    if calls == [] then [] else [Call(calls[0].cost, calls[0].at * MILLISECOND)] + InNanoseconds(calls[1..])
  }

  /** The two stores give the same answers to every sequence of calls, and hold the same tokens after it. */
  lemma {:induction false} StoresAgree(rule: Rule, raw: Option<Record>, b: Option<Bucket>, calls: seq<Call>, from: int)
    requires rule.Valid() && rule.ttl % MILLISECOND == 0 && Same(raw, b) && Ordered(calls, from)
    requires b.Some? ==> b.value.tokens <= rule.burst as real && b.value.updatedAt <= from * MILLISECOND
    ensures ScriptDecisions(rule, raw, calls) == Decisions(rule, b, InNanoseconds(calls))
    ensures Same(ScriptFinal(rule, raw, calls), Final(rule, b, InNanoseconds(calls)))
    decreases |calls|
  {
    if calls != [] {
      var (cost, at) := (calls[0].cost, calls[0].at);
      ScriptAgrees(rule, raw, b, cost, at);
      var (r, _, _) := Script(rule, raw, cost, at);
      var (k, _) := Consume(rule, b, cost, at * MILLISECOND);
      assert InNanoseconds(calls)[1..] == InNanoseconds(calls[1..]);
      StoresAgree(rule, Some(r), Some(k), calls[1..], at);
    }
  }

  /** The memory store's wait is the script's, rounded up to whole seconds. */
  lemma WaitsAgree(rule: Rule, tokens: real, cost: int)
    requires rule.Valid() && tokens < cost as real && WaitSeconds(rule, tokens, cost) < MAX_WAIT_SECONDS
    ensures var retry := Ceil(((cost as real - tokens) / rule.rate) * 1000.0);
      retry <= WaitSeconds(rule, tokens, cost) * 1000 < retry + 1000
  {
    var x := (cost as real - tokens) / rule.rate;
    var (n, retry) := (Ceil(x), Ceil(x * 1000.0));
    RateTimes(rule.rate, 0.0, cost as real - tokens);
    CeilIsLeast(x, n);
    CeilIsLeast(x * 1000.0, n * 1000);
    assert (n * 1000) as real == n as real * 1000.0;
    assert (n * 1000) as real < x * 1000.0 + 1000.0 <= retry as real + 1000.0;
  }
}
