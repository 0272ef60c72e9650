/** The session record and its life cycle (session.go, admission.go, config.go). */
module Sessions {
  import opened Basics

  datatype SessionId = SessionId(serial: nat)
  datatype ChallengeId = ChallengeId(serial: nat)

  datatype State = New | Waiting | ChallengeRequired | Admitted | Expired | Revoked | Rotating

  datatype Trigger =
    | NewClient | WaitElapsed | NeedChallenge | ChallengeSolved
    | ChallengeFailed | Expire | Revoke | Rotate

  predicate IsLegalTransition(from: State, on: Trigger, to: State) {
    match from
    case New =>
      (match on
       case NewClient => to == Waiting || to == ChallengeRequired || to == Admitted
       case Expire => to == Expired
       case Revoke => to == Revoked
       case _ => false)
    case Waiting =>
      (match on
       case WaitElapsed => to == ChallengeRequired || to == Admitted
       case NeedChallenge => to == ChallengeRequired
       case Expire => to == Expired
       case Revoke => to == Revoked
       case _ => false)
    case ChallengeRequired =>
      (match on
       case ChallengeSolved => to == Admitted
       case NeedChallenge => to == ChallengeRequired
       case ChallengeFailed => to == Waiting || to == Revoked
       case Expire => to == Expired
       case Revoke => to == Revoked
       case _ => false)
    case Admitted =>
      (match on
       case Rotate => to == Rotating || to == Admitted
       case Expire => to == Expired
       case Revoke => to == Revoked
       case _ => false)
    case Rotating =>
      (match on
       case Rotate => to == Admitted
       case Expire => to == Expired
       case Revoke => to == Revoked
       case _ => false)
    case Expired => on == Revoke && to == Revoked
    case Revoked => false
  }

  datatype Session = Session(
    id: SessionId,
    state: State,
    firstSeen: Time,
    expiresAt: Option<Time>,
    absoluteExpiresAt: Option<Time>,
    renewalCount: nat,
    maxRenewals: int,
    createdAt: Time,
    lastSeenAt: Time,
    challenge: Option<ChallengeId>
  ) {
    predicate IsExpired(now: Time) {
      state == Expired || (expiresAt.Some? && now >= expiresAt.value)
    }
  }

  /** A stored challenge. The answer stands for its hash, which is taken to be injective. */
  datatype Challenge = Challenge(
    id: ChallengeId,
    session: SessionId,
    answer: string,
    createdAt: Time,
    expiresAt: Time,
    attempts: nat,
    maxAttempts: int
  )

  datatype Config = Config(
    waitEnabled: bool,
    waitTime: Time,
    captchaEnabled: bool,
    captchaLength: int,
    captchaTTL: Time,
    maxAttempts: int,
    sessionTTL: Time,
    absoluteLifetime: Time,
    maxRenewals: int,
    maxSessions: int
  ) {
    /** The bounds that `Config.Validate` enforces. */
    predicate Valid() {
      && (waitEnabled ==> waitTime > 0)
      && (captchaEnabled ==> captchaTTL > 0 && maxAttempts > 0 && 3 <= captchaLength <= 16)
      && sessionTTL > 0
      && absoluteLifetime >= 0
      && maxRenewals >= 0
      && maxSessions > 0
    }
  }

  /** `t`, but never past an absolute deadline. */
  function Capped(deadline: Option<Time>, t: Time): Time {
    if deadline.Some? && deadline.value < t then deadline.value else t
  }

  /** The time a session still has: its own deadline, else its absolute one, else a fallback. */
  function RemainingTTL(s: Session, now: Time, fallback: Time): (ttl: Time)
    ensures ttl > 0
    ensures s.expiresAt.Some? && now < s.expiresAt.value ==> now + ttl == s.expiresAt.value
  {
    if s.expiresAt.Some? && s.expiresAt.value - now > 0 then s.expiresAt.value - now
    else if s.absoluteExpiresAt.Some? && s.absoluteExpiresAt.value - now > 0 then s.absoluteExpiresAt.value - now
    else if fallback > 0 then fallback
    else SECOND
  }
}
