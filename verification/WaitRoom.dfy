/** Proof-of-patience arithmetic (waitroom.go) and the two checks written inline in admission.go. */
module WaitRoom {
  import opened Basics

  /** What is left to wait; a clock that moved backwards counts as no time waited. */
  function WaitRemaining(firstSeen: Time, now: Time, wait: Time): Time {
    if wait <= 0 then 0
    else if now - firstSeen < 0 then wait
    else if now - firstSeen >= wait then 0
    else wait - (now - firstSeen)
  }

  predicate WaitSatisfied(firstSeen: Time, now: Time, wait: Time) {
    WaitRemaining(firstSeen, now, wait) == 0
  }

  /** The elapsed time that `evaluate` compares with the wait. */
  function ClampedElapsed(firstSeen: Time, now: Time): Time {
    if now - firstSeen < 0 then 0 else now - firstSeen
  }

  /** Whole seconds, rounded up, at least one: the advertised `Retry-After`. */
  function RetryAfter(remaining: Time): Time {
    var retry := -(-remaining / SECOND) * SECOND;
    if retry < SECOND then SECOND else retry
  }

  /** The clamped check of `evaluate` is exactly the wait room's own. */
  lemma EvaluateAgrees(firstSeen: Time, now: Time, wait: Time)
    ensures ClampedElapsed(firstSeen, now) >= wait <==> WaitSatisfied(firstSeen, now, wait)
  {
  }

  /**
   The unclamped check made under the lock agrees with it exactly when the wait is positive, as a
   validated configuration demands, or the clock has not moved back past a non-positive wait.
   */
  lemma LockedCheckAgreesIff(firstSeen: Time, now: Time, wait: Time)
    ensures (now - firstSeen >= wait <==> WaitSatisfied(firstSeen, now, wait))
       <==> (wait > 0 || now - firstSeen >= wait)
  {
  }

  /** Whoever returns after the advertised delay passes, and one whole second earlier is too early. */
  lemma RetryAfterSoundAndTight(firstSeen: Time, now: Time, wait: Time, later: Time)
    requires firstSeen <= now && !WaitSatisfied(firstSeen, now, wait)
    ensures var retry := RetryAfter(WaitRemaining(firstSeen, now, wait));
      && retry % SECOND == 0
      && (later >= now + retry ==> WaitSatisfied(firstSeen, later, wait))
      && (firstSeen <= later <= now + retry - SECOND ==> !WaitSatisfied(firstSeen, later, wait))
  {
    var remaining := WaitRemaining(firstSeen, now, wait);
    var q := -remaining / SECOND;
    assert -remaining == q * SECOND + (-remaining) % SECOND;
    assert -q * SECOND >= remaining > (-q - 1) * SECOND;
  }
}
