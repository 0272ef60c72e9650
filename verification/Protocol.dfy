/**
 What one critical section of the engine does, as a function from the world to an outcome
 (challenge.go, admission.go, session.go). Each handler runs at one clock instant. A `Faults` value
 says which of its store calls fail; a failing call has no effect on the store.
 */
module Protocol {
  import opened Basics
  import opened TtlMaps
  import opened Sessions
  import Quota
  import WaitRoom

  /** Everything the engine keeps in its store, and the clock. */
  datatype World = World(
    now: Time,
    sessions: map<SessionId, Entry<Session>>,
    challenges: map<ChallengeId, Entry<Challenge>>,
    reservations: map<SessionId, Time>
  )

  /** Which calls fail during one operation. */
  datatype Faults = Faults(
    snapshot: bool,  // reading the session before any lock is taken
    enter: bool,     // taking the lock, or reading the session under it
    lookup: bool,    // reading the challenge
    render: bool,    // producing or encoding a fresh challenge
    put: bool,       // writing the challenge
    save: bool,      // writing the session
    delete: bool,    // deleting the challenge, or the rotated session
    undo: bool,      // the compensating call
    capacity: bool   // reserving, renewing, moving or releasing a reservation
  ) {
    predicate Any() {
      snapshot || enter || lookup || render || put || save || delete || undo || capacity
    }
  }

  datatype Error =
    | InvalidSession | SessionExpired | SessionRevoked | InvalidTransition
    | RenewalLimitReached | CapacityExceeded
    | ChallengeNotFound | ChallengeExpired | WrongAnswer | MaxAttemptsExceeded
    | StoreFailure

  datatype Reply =
    | Allow                                        // the request is served
    | Hold(state: State, retryAfter: Time)         // it is not, and the session is in `state`
    | Present(challenge: ChallengeId)              // a challenge to show
    | Done                                         // the operation succeeded
    | Replaced(successor: SessionId)               // rotation succeeded
    | Fail(error: Error)

  /** What became of the challenge after a wrong answer that sent nobody back. */
  datatype Tally =
    | Counted    // the attempt is recorded
    | Uncounted  // it could not be
    | Dropped    // it was the last one, and the challenge is gone

  /**
   The one thing worth remembering about an operation. `Issued` tells whether the new challenge took the
   place of one that could still be answered; `Touched`, where a challenge changed but no session did,
   whether one that could be answered is gone.
   */
  datatype Event =
    | Contacted(id: SessionId, state: State, at: Time)
    | WaitPassed(id: SessionId, at: Time)
    | AdmittedAfterWait(id: SessionId, at: Time)
    | Issued(id: SessionId, challenge: ChallengeId, answer: string, at: Time, again: bool)
    | Guessed(id: SessionId, challenge: ChallengeId, at: Time, tally: Tally)
    | Expelled(id: SessionId, challenge: ChallengeId, at: Time)
    | Solved(id: SessionId, challenge: ChallengeId, answer: string, at: Time)
    | Served(id: SessionId, at: Time)
    | Rotated(id: SessionId, successor: SessionId, at: Time)
    | Withdrawn(id: SessionId, at: Time)
    | Touched(id: SessionId, challenge: ChallengeId, at: Time, lost: bool)
    | Quiet(id: SessionId)

  datatype Outcome = Outcome(world: World, reply: Reply, event: Event)

  const WAIT_GRACE: Time := 10 * MINUTE
  const CHALLENGE_GRACE: Time := 5 * MINUTE
  const REVOKED_RETENTION: Time := 5 * MINUTE
  const EXPIRED_RETENTION: Time := MINUTE

  function Nothing(w: World, id: SessionId, reply: Reply): Outcome {
    Outcome(w, reply, Quiet(id))
  }

  function SaveSession(w: World, s: Session, ttl: Time): World {
    w.(sessions := w.sessions[s.id := Entry(s, w.now + ttl)])
  }

  function DropChallenge(w: World, ch: ChallengeId): World {
    w.(challenges := w.challenges - {ch})
  }

  /** Reserve capacity, or fail; `maxSessions <= 0` switches the quota off. */
  function TryReserve(cfg: Config, w: World, id: SessionId, expiresAt: Time): (World, bool) {
    if cfg.maxSessions <= 0 then (w, true)
    else
      var (r, ok) := Quota.Reserve(w.reservations, id, cfg.maxSessions, w.now, expiresAt);
      (w.(reservations := r), ok)
  }

  /** Best-effort renewal: its result is ignored. */
  function Renew(cfg: Config, w: World, id: SessionId, expiresAt: Time, fails: bool): World {
    if fails then w else TryReserve(cfg, w, id, expiresAt).0
  }

  function ReleaseSlot(w: World, id: SessionId, fails: bool): World {
    if fails then w else w.(reservations := Quota.Release(w.reservations, id))
  }

  // ---- admission.go -------------------------------------------------------------------------

  /** The session that a client without one gets at this instant. */
  function Candidate(cfg: Config, now: Time, id: SessionId): Session {
    var deadline := if cfg.absoluteLifetime > 0 then Some(now + cfg.absoluteLifetime) else None;
    var (state, ttl) :=
      if cfg.waitEnabled then (Waiting, cfg.waitTime + WAIT_GRACE)
      else if cfg.captchaEnabled then (ChallengeRequired, cfg.captchaTTL + CHALLENGE_GRACE)
      else (Admitted, cfg.sessionTTL);
    Session(id, state, now, Some(Capped(deadline, now + ttl)), deadline, 0, cfg.maxRenewals, now, now, None)
  }

  /** First contact under a freshly drawn id. */
  function Contact(cfg: Config, w: World, id: SessionId, f: Faults): Outcome {
    var s := Candidate(cfg, w.now, id);
    var expiresAt := s.expiresAt.value;
    if expiresAt <= w.now then Nothing(w, id, Fail(SessionExpired))
    else if f.capacity && cfg.maxSessions > 0 then Nothing(w, id, Fail(StoreFailure))
    else
      var (reserved, ok) := TryReserve(cfg, w, id, expiresAt);
      if !ok then Nothing(reserved, id, Fail(CapacityExceeded))
      else if f.save then
        Nothing(if cfg.maxSessions > 0 then ReleaseSlot(reserved, id, f.undo) else reserved, id, Fail(StoreFailure))
      else
        Outcome(SaveSession(reserved, s, expiresAt - w.now),
                if s.state == Admitted then Allow
                else Hold(s.state, if s.state == Waiting then cfg.waitTime else 0),
                Contacted(id, s.state, w.now))
  }

  /** A request that carries the id of a session. */
  function Evaluate(cfg: Config, w: World, id: SessionId, f: Faults): Outcome {
    if f.snapshot then Nothing(w, id, Fail(StoreFailure))
    else
      match Lookup(w.sessions, id, w.now)
      case None => Nothing(w, id, Fail(InvalidSession))
      case Some(s) =>
        if s.state == Revoked then Nothing(w, id, Hold(Revoked, 0))
        else if s.IsExpired(w.now) then Nothing(w, id, Hold(Expired, 0))
        else match s.state
          case Admitted => Outcome(w, Allow, Served(id, w.now))
          case Waiting =>
            if WaitRoom.ClampedElapsed(s.firstSeen, w.now) < cfg.waitTime then
              Nothing(w, id, Hold(Waiting,
                WaitRoom.RetryAfter(cfg.waitTime - WaitRoom.ClampedElapsed(s.firstSeen, w.now))))
            else PassWait(cfg, w, id, f)
          case ChallengeRequired => Nothing(w, id, Hold(ChallengeRequired, 0))
          case New => Contact(cfg, w, id, f)
          case _ => Nothing(w, id, Hold(s.state, 0))
  }

  /** The wait has elapsed by the caller's snapshot: decide again, under the session's lock. */
  function PassWait(cfg: Config, w: World, id: SessionId, f: Faults): Outcome {
    if f.enter then Nothing(w, id, Fail(StoreFailure))
    else
      match Lookup(w.sessions, id, w.now)
      case None => Nothing(w, id, Fail(InvalidSession))
      case Some(s) =>
        if s.state == Revoked then Nothing(w, id, Hold(Revoked, 0))
        else if s.IsExpired(w.now) then Nothing(w, id, Hold(Expired, 0))
        else if s.state == Admitted then Outcome(w, Allow, Served(id, w.now))
        else if s.state == ChallengeRequired then Nothing(w, id, Hold(ChallengeRequired, 0))
        else if s.state != Waiting then Nothing(w, id, Fail(InvalidTransition))
        else if w.now - s.firstSeen < cfg.waitTime then
          Nothing(w, id, Hold(Waiting, WaitRoom.RetryAfter(cfg.waitTime - (w.now - s.firstSeen))))
        else LeaveWait(cfg, w, id, s, f)
  }

  /** The wait is over: on to the challenge, or straight in. */
  function LeaveWait(cfg: Config, w: World, id: SessionId, s: Session, f: Faults): Outcome {
    var target := if cfg.captchaEnabled then ChallengeRequired else Admitted;
    var ttl := if cfg.captchaEnabled then cfg.captchaTTL + CHALLENGE_GRACE else cfg.sessionTTL;
    var expiresAt := Capped(s.absoluteExpiresAt, w.now + ttl);
    var next := s.(state := target, lastSeenAt := w.now, expiresAt := Some(expiresAt));
    if expiresAt <= w.now then Nothing(w, id, Hold(Expired, 0))
    else if f.save then Nothing(w, id, Fail(StoreFailure))
    else
      Outcome(Renew(cfg, SaveSession(w, next, expiresAt - w.now), id, expiresAt, f.capacity),
              if cfg.captchaEnabled then Hold(ChallengeRequired, 0) else Allow,
              if cfg.captchaEnabled then WaitPassed(id, w.now) else AdmittedAfterWait(id, w.now))
  }

  /** The exported transition, which `Engine` itself never calls. */
  function Transition(cfg: Config, w: World, id: SessionId, on: Trigger, target: State, f: Faults): Outcome {
    if f.enter then Nothing(w, id, Fail(StoreFailure))
    else
      match Lookup(w.sessions, id, w.now)
      case None => Nothing(w, id, Fail(InvalidSession))
      case Some(s) =>
        if s.state == target then Nothing(w, id, Done)
        else if !IsLegalTransition(s.state, on, target) then Nothing(w, id, Fail(InvalidTransition))
        else MoveTo(cfg, w, s, target, f)
  }

  /** Store a session in state `target`; a non-terminal one keeps its own deadline. */
  function MoveTo(cfg: Config, w: World, s: Session, target: State, f: Faults): Outcome {
    var (expiresAt, ttl) :=
      if target == Admitted then
        (Some(Capped(s.absoluteExpiresAt, w.now + cfg.sessionTTL)),
         Capped(s.absoluteExpiresAt, w.now + cfg.sessionTTL) - w.now)
      else if target == Revoked then (None, REVOKED_RETENTION)
      else if target == Expired then (Some(w.now), EXPIRED_RETENTION)
      else (s.expiresAt, cfg.sessionTTL);
    if ttl <= 0 then Nothing(w, s.id, Fail(SessionExpired))
    else if f.save then Nothing(w, s.id, Fail(StoreFailure))
    else
      var saved := SaveSession(w, s.(state := target, lastSeenAt := w.now, expiresAt := expiresAt), ttl);
      Nothing(Rebook(cfg, saved, s.id, target, w.now + ttl, f.capacity), s.id, Done)
  }

  /** The reservation follows the state, as far as the store lets it. */
  function Rebook(cfg: Config, w: World, id: SessionId, target: State, expiresAt: Time, fails: bool): World {
    if target == Revoked || target == Expired then
      (if cfg.maxSessions > 0 then ReleaseSlot(w, id, fails) else w)
    else if target == Admitted then Renew(cfg, w, id, expiresAt, fails)
    else w
  }

  // ---- challenge.go -------------------------------------------------------------------------

  /** Show the session's challenge, or make one: `draft` and `answer` are the random draws. */
  function Issue(cfg: Config, w: World, id: SessionId, draft: ChallengeId, answer: string, f: Faults): Outcome {
    if f.enter then Nothing(w, id, Fail(StoreFailure))
    else
      match Lookup(w.sessions, id, w.now)
      case None => Nothing(w, id, Fail(InvalidSession))
      case Some(s) =>
        if s.state != ChallengeRequired then Nothing(w, id, Fail(InvalidTransition))
        else if s.IsExpired(w.now) then Nothing(w, id, Fail(SessionExpired))
        else if s.challenge.Some? && !f.lookup && Presentable(w, s.challenge.value) then
          Nothing(w, id, Present(s.challenge.value))
        else Mint(cfg, w, s, draft, answer, f)
  }

  /** Store a new challenge, and the session that refers to it for no longer than the challenge. */
  function Mint(cfg: Config, w: World, s: Session, draft: ChallengeId, answer: string, f: Faults): Outcome {
    var c := Challenge(draft, s.id, answer, w.now, w.now + cfg.captchaTTL, 0, cfg.maxAttempts);
    var ttl := if s.expiresAt.Some? && s.expiresAt.value < c.expiresAt then s.expiresAt.value - w.now
               else cfg.captchaTTL;
    if f.render then Nothing(w, s.id, Fail(StoreFailure))
    else if ttl <= 0 then Nothing(w, s.id, Fail(SessionExpired))
    else if f.put then Nothing(w, s.id, Fail(StoreFailure))
    else
      var made := w.(challenges := w.challenges[draft := Entry(c, w.now + ttl)]);
      var remaining := RemainingTTL(s, w.now, ttl);
      if f.save then
        Outcome(if f.undo then made else DropChallenge(made, draft), Fail(StoreFailure),
                Touched(s.id, draft, w.now, false))
      else
        Outcome(SaveSession(made, s.(challenge := Some(draft)), if remaining > ttl then ttl else remaining),
                Present(draft),
                Issued(s.id, draft, answer, w.now, s.challenge.Some? && Presentable(w, s.challenge.value)))
  }

  /** `loadPublicChallenge` succeeds. */
  predicate Presentable(w: World, ch: ChallengeId) {
    var c := Lookup(w.challenges, ch, w.now);
    c.Some? && w.now < c.value.expiresAt
  }

  /** Check an answer, already trimmed and upper-cased. */
  function Validate(cfg: Config, w: World, id: SessionId, answer: string, f: Faults): Outcome {
    if answer == "" || |answer| > cfg.captchaLength then Nothing(w, id, Fail(WrongAnswer))
    else if f.enter then Nothing(w, id, Fail(StoreFailure))
    else
      match Lookup(w.sessions, id, w.now)
      case None => Nothing(w, id, Fail(InvalidSession))
      case Some(s) =>
        if s.state != ChallengeRequired then Nothing(w, id, Fail(InvalidTransition))
        else if s.challenge.None? then Nothing(w, id, Fail(ChallengeNotFound))
        else if f.lookup then Nothing(w, id, Fail(StoreFailure))
        else
          match Lookup(w.challenges, s.challenge.value, w.now)
          case None => Nothing(w, id, Fail(ChallengeNotFound))
          case Some(c) =>
            if w.now >= c.expiresAt then
              Outcome(if f.delete then w else DropChallenge(w, c.id), Fail(ChallengeExpired),
                      Touched(id, c.id, w.now, false))
            else if answer != c.answer then Reject(cfg, w, s, c, f)
            else Accept(cfg, w, s, c, f)
  }

  /** A wrong answer was compared. */
  function Reject(cfg: Config, w: World, s: Session, c: Challenge, f: Faults): Outcome {
    if c.attempts + 1 < c.maxAttempts then
      if f.put then Outcome(w, Fail(StoreFailure), Guessed(s.id, c.id, w.now, Uncounted))
      else
        Outcome(w.(challenges := w.challenges[c.id := Entry(c.(attempts := c.attempts + 1), c.expiresAt)]),
                Fail(WrongAnswer), Guessed(s.id, c.id, w.now, Counted))
    else
      var dropped := if f.delete then w else DropChallenge(w, c.id);
      var next := Expel(cfg, s, w.now);
      if f.save then
        Outcome(dropped, Fail(StoreFailure), Guessed(s.id, c.id, w.now, if f.delete then Uncounted else Dropped))
      else
        Outcome(SaveSession(dropped, next, RemainingTTL(next, w.now, cfg.sessionTTL)),
                Fail(MaxAttemptsExceeded),
                if cfg.waitEnabled then Expelled(s.id, c.id, w.now) else Guessed(s.id, c.id, w.now, Dropped))
  }

  /** The session after its last attempt: back to the wait room, if there is one. */
  function Expel(cfg: Config, s: Session, now: Time): Session {
    var bare := s.(challenge := None);
    if !cfg.waitEnabled then bare
    else
      var expiresAt := Capped(s.absoluteExpiresAt, now + cfg.waitTime + WAIT_GRACE);
      var waiting := bare.(state := Waiting, firstSeen := now);
      if expiresAt > now then waiting.(expiresAt := Some(expiresAt)) else waiting
  }

  /** The right answer: consume the challenge and admit, or put the challenge back. */
  function Accept(cfg: Config, w: World, s: Session, c: Challenge, f: Faults): Outcome {
    if f.delete then Nothing(w, s.id, Fail(StoreFailure))
    else
      var consumed := DropChallenge(w, c.id);
      var expiresAt := Capped(s.absoluteExpiresAt, w.now + cfg.sessionTTL);
      var next := s.(challenge := None, state := Admitted, lastSeenAt := w.now, expiresAt := Some(expiresAt));
      if expiresAt <= w.now then Outcome(consumed, Fail(SessionExpired), Touched(s.id, c.id, w.now, true))
      else if f.save then
        Outcome(if f.undo then consumed
                else consumed.(challenges := consumed.challenges[c.id := Entry(c, c.expiresAt)]),
                Fail(StoreFailure), Touched(s.id, c.id, w.now, f.undo))
      else
        Outcome(Renew(cfg, SaveSession(consumed, next, expiresAt - w.now), s.id, expiresAt, f.capacity),
                Done, Solved(s.id, c.id, c.answer, w.now))
  }

  // ---- session.go ---------------------------------------------------------------------------

  function RevokeSession(w: World, id: SessionId, f: Faults): Outcome {
    if f.enter then Nothing(w, id, Fail(StoreFailure))
    else
      match Lookup(w.sessions, id, w.now)
      case None => Nothing(w, id, Fail(InvalidSession))
      case Some(s) =>
        if s.state == Revoked then Nothing(w, id, Fail(SessionRevoked))
        else if f.save then Nothing(w, id, Fail(StoreFailure))
        else
          var next := s.(state := Revoked, expiresAt := None, lastSeenAt := w.now);
          Outcome(ReleaseSlot(SaveSession(w, next, REVOKED_RETENTION), id, f.capacity),
                  Done, Withdrawn(id, w.now))
  }

  /** Replace an admitted session by one with the id `successor`, a fresh random draw. */
  function RotateSession(cfg: Config, w: World, id: SessionId, successor: SessionId, f: Faults): Outcome {
    if f.enter then Nothing(w, id, Fail(StoreFailure))
    else
      match Lookup(w.sessions, id, w.now)
      case None => Nothing(w, id, Fail(InvalidSession))
      case Some(s) =>
        var refusal := RotationRefused(cfg, s, w.now);
        if refusal.Some? then Nothing(w, id, Fail(refusal.value))
        else Replace(cfg, w, s, successor, f)
  }

  /** Store the successor, then delete the session it again, or else the successor again. */
  function Replace(cfg: Config, w: World, s: Session, successor: SessionId, f: Faults): Outcome {
    var expiresAt := Capped(s.absoluteExpiresAt, w.now + cfg.sessionTTL);
    var next := Session(successor, Admitted, s.firstSeen, Some(expiresAt), s.absoluteExpiresAt,
                        s.renewalCount + 1, s.maxRenewals, s.createdAt, w.now, None);
    if f.save then Nothing(w, s.id, Fail(StoreFailure))
    else
      var both := SaveSession(w, next, expiresAt - w.now);
      if f.delete then
        if f.undo then Outcome(both, Fail(StoreFailure), Rotated(s.id, successor, w.now))
        else Nothing(both.(sessions := both.sessions - {successor}), s.id, Fail(StoreFailure))
      else
        var only := both.(sessions := both.sessions - {s.id});
        Outcome(if f.capacity then only
                else only.(reservations := Quota.Move(only.reservations, s.id, successor, expiresAt).0),
                Replaced(successor), Rotated(s.id, successor, w.now))
  }

  /** Why a stored session may not be rotated, if it may not. */
  function RotationRefused(cfg: Config, s: Session, now: Time): Option<Error> {
    if s.state == Revoked then Some(SessionRevoked)
    else if s.IsExpired(now) then Some(SessionExpired)
    else if s.state != Admitted && s.state != Rotating then Some(InvalidTransition)
    else if s.maxRenewals > 0 && s.renewalCount >= s.maxRenewals then Some(RenewalLimitReached)
    else if Capped(s.absoluteExpiresAt, now + cfg.sessionTTL) <= now then Some(SessionExpired)
    else None
  }
}
