/**
 The engine as a mutable object: admission.go, challenge.go and session.go step by step, on fields that
 the store would hold. Every method is proved to take the step of `Runs` that bears its name, so an
 `Engine` is always at the end of a run and every theorem about runs speaks of it.
 */
module Engines {
  import opened Basics
  import opened TtlMaps
  import opened Sessions
  import opened Protocol
  import opened Runs
  import Quota
  import WaitRoom
  import Capacity
  import GuessBudget
  import Patience
  import Lifetime
  import Requests

  class Engine {
    const cfg: Config
    var now: Time
    var sessions: map<SessionId, Entry<Session>>
    var challenges: map<ChallengeId, Entry<Challenge>>
    var reservations: map<SessionId, Time>
    ghost var run: Run

    ghost function State(): World
      reads this
    {
      World(now, sessions, challenges, reservations)
    }

    ghost predicate Valid()
      reads this
    {
      cfg.Valid() && Possible(cfg, run) && After(cfg, run).world == State()
    }

    constructor (cfg: Config, now: Time)
      requires cfg.Valid()
      ensures Valid() && run == Init(now) && this.cfg == cfg
    {
      this.cfg := cfg;
      this.now := now;
      this.sessions, this.challenges, this.reservations := map[], map[], map[];
      this.run := Init(now);
    }

    // ---- the store ----------------------------------------------------------------------------

    method GetSession(id: SessionId) returns (s: Option<Session>)
      ensures s == Lookup(sessions, id, now)
    {
      if id in sessions && now < sessions[id].expiresAt {
        return Some(sessions[id].value);
      }
      return None;
    }

    method SetSession(s: Session, ttl: Time, fails: bool) returns (ok: bool)
      modifies this`sessions
      ensures ok == !fails
      ensures State() == if ok then SaveSession(old(State()), s, ttl) else old(State())
    {
      if fails {
        return false;
      }
      sessions := sessions[s.id := Entry(s, now + ttl)];
      return true;
    }

    method SetChallenge(c: Challenge, ttl: Time, fails: bool) returns (ok: bool)
      modifies this`challenges
      ensures ok == !fails
      ensures challenges == if ok then old(challenges)[c.id := Entry(c, now + ttl)] else old(challenges)
    {
      if fails {
        return false;
      }
      challenges := challenges[c.id := Entry(c, now + ttl)];
      return true;
    }

    method DeleteChallenge(ch: ChallengeId, fails: bool) returns (ok: bool)
      modifies this`challenges
      ensures ok == !fails
      ensures State() == if ok then DropChallenge(old(State()), ch) else old(State())
    {
      if fails {
        return false;
      }
      challenges := challenges - {ch};
      return true;
    }

    /** `reserveSession` and, with its result ignored, `renewReservation`. */
    method ReserveSession(id: SessionId, expiresAt: Time) returns (ok: bool)
      modifies this`reservations
      ensures (State(), ok) == TryReserve(cfg, old(State()), id, expiresAt)
    {
      if cfg.maxSessions <= 0 {
        return true;
      }
      var (r, fits) := Quota.Reserve(reservations, id, cfg.maxSessions, now, expiresAt);
      reservations := r;
      return fits;
    }

    // ---- the clock ----------------------------------------------------------------------------

    method Advance(elapsed: nat)
      requires Valid()
      modifies this
      ensures Valid() && run == Next(old(run), Tick(elapsed))
    {
      now := now + elapsed;
      run := Next(run, Tick(elapsed));
    }

    method Janitor()
      requires Valid()
      modifies this
      ensures Valid() && run == Next(old(run), Sweep)
    {
      sessions := Purge(sessions, now);
      challenges := Purge(challenges, now);
      reservations := Quota.LiveOnly(reservations, now);
      run := Next(run, Sweep);
    }

    // ---- onionguard.go ------------------------------------------------------------------------

    method AuthorizeRequest(d: Requests.Demand) returns (decision: Requests.Decision)
      requires Valid() && Requests.Drawn(After(cfg, run), d)
      modifies this
      ensures Valid() && (run, decision) == Requests.Authorize(cfg, old(run), d)
    {
      var found := None;
      if d.cookie.Some? {
        if d.unread {
          return Requests.Broken(StoreFailure);
        }
        found := GetSession(d.cookie.value);
      }
      match d.verdict {
        case Exceeded => return Requests.Limited;
        case Unavailable => return Requests.Broken(StoreFailure);
        case Passed =>
      }
      var id, reply;
      if found.Some? {
        id := d.cookie.value;
        reply := EvaluateFresh(id, d.f.(snapshot := false));
      } else {
        id := d.candidate;
        reply := HandleNewClient(id, d.f);
      }
      if reply.Fail? {
        return Requests.Broken(reply.error);
      }
      if cfg.captchaEnabled && reply.Hold? && reply.state == ChallengeRequired {
        reply := IssueChallenge(id, d.draft, d.answer, d.g);
        if reply.Present? {
          return Requests.Challenged(id, reply.challenge);
        }
        if reply.Fail? {
          return Requests.Broken(reply.error);
        }
      }
      return Requests.Decided(id, reply);
    }

    // ---- admission.go -------------------------------------------------------------------------

    method HandleNewClient(id: SessionId, f: Faults) returns (reply: Reply)
      requires Valid() && id !in After(cfg, run).sessionIds
      modifies this
      ensures Valid() && run == Next(old(run), FirstContact(id, f))
      ensures reply == Contact(cfg, old(State()), id, f).reply
    {
      reply := NewClient(id, f);
      run := Next(run, FirstContact(id, f));
    }

    method NewClient(id: SessionId, f: Faults) returns (reply: Reply)
      requires cfg.Valid()
      modifies this`sessions, this`reservations
      ensures State() == Contact(cfg, old(State()), id, f).world && reply == Contact(cfg, old(State()), id, f).reply
    {
      var s, ttl := NewSession(id);
      if ttl <= 0 {
        return Fail(SessionExpired);
      }
      if f.capacity {
        return Fail(StoreFailure);
      }
      var fits := ReserveSession(id, now + ttl);
      if !fits {
        return Fail(CapacityExceeded);
      }
      var saved := SetSession(s, ttl, f.save);
      if !saved {
        if !f.undo {
          reservations := Quota.Release(reservations, id);
        }
        return Fail(StoreFailure);
      }
      return match s.state
             case Waiting => Hold(Waiting, cfg.waitTime)
             case ChallengeRequired => Hold(ChallengeRequired, 0)
             case _ => Allow;
    }

    /** The candidate session and the time it is to be stored for. */
    method NewSession(id: SessionId) returns (s: Session, ttl: Time)
      ensures s == Candidate(cfg, now, id) && now + ttl == s.expiresAt.value
    {
      s := Session(id, New, now, None, None, 0, cfg.maxRenewals, now, now, None);
      if cfg.absoluteLifetime > 0 {
        s := s.(absoluteExpiresAt := Some(now + cfg.absoluteLifetime));
      }
      if cfg.waitEnabled {
        s := s.(state := Waiting);
        ttl := cfg.waitTime + WAIT_GRACE;
        if s.absoluteExpiresAt.Some? && s.absoluteExpiresAt.value < now + ttl {
          ttl := s.absoluteExpiresAt.value - now;
        }
        s := s.(expiresAt := Some(now + ttl));
      } else if cfg.captchaEnabled {
        s := s.(state := ChallengeRequired);
        ttl := cfg.captchaTTL + CHALLENGE_GRACE;
        if s.absoluteExpiresAt.Some? && s.absoluteExpiresAt.value < now + ttl {
          ttl := s.absoluteExpiresAt.value - now;
        }
        s := s.(expiresAt := Some(now + ttl));
      } else {
        s := s.(state := Admitted, expiresAt := Some(now + cfg.sessionTTL));
        if s.absoluteExpiresAt.Some? && s.absoluteExpiresAt.value < s.expiresAt.value {
          s := s.(expiresAt := s.absoluteExpiresAt);
        }
        ttl := s.expiresAt.value - now;
      }
    }

    method EvaluateFresh(id: SessionId, f: Faults) returns (reply: Reply)
      requires Valid()
      modifies this
      ensures Valid() && run == Next(old(run), Request(id, f))
      ensures reply == Evaluate(cfg, old(State()), id, f).reply
    {
      reply := Decide(id, f);
      run := Next(run, Request(id, f));
    }

    method Decide(id: SessionId, f: Faults) returns (reply: Reply)
      requires cfg.Valid()
      modifies this`sessions, this`reservations
      ensures State() == Evaluate(cfg, old(State()), id, f).world && reply == Evaluate(cfg, old(State()), id, f).reply
    {
      if f.snapshot {
        return Fail(StoreFailure);
      }
      var found := GetSession(id);
      if found.None? {
        return Fail(InvalidSession);
      }
      var cur := found.value;
      if cur.state == Revoked {
        return Hold(Revoked, 0);
      }
      if cur.IsExpired(now) {
        return Hold(Expired, 0);
      }
      match cur.state {
        case Admitted =>
          return Allow;
        case Waiting =>
          var elapsed := now - cur.firstSeen;
          if elapsed < 0 {
            elapsed := 0;
          }
          if elapsed < cfg.waitTime {
            return Hold(Waiting, WaitRoom.RetryAfter(cfg.waitTime - elapsed));
          }
          reply := HandleWaitElapsed(id, f);
        case ChallengeRequired =>
          return Hold(ChallengeRequired, 0);
        case New =>
          reply := NewClient(id, f);
        case _ =>
          return Hold(cur.state, 0);
      }
    }

    method HandleWaitElapsed(id: SessionId, f: Faults) returns (reply: Reply)
      modifies this`sessions, this`reservations
      ensures State() == PassWait(cfg, old(State()), id, f).world && reply == PassWait(cfg, old(State()), id, f).reply
    {
      if f.enter {
        return Fail(StoreFailure);
      }
      var found := GetSession(id);
      if found.None? {
        return Fail(InvalidSession);
      }
      var s := found.value;
      if s.state == Revoked {
        return Hold(Revoked, 0);
      }
      if s.IsExpired(now) {
        return Hold(Expired, 0);
      }
      if s.state != Waiting {
        return match s.state
               case Admitted => Allow
               case ChallengeRequired => Hold(ChallengeRequired, 0)
               case _ => Fail(InvalidTransition);
      }
      if now - s.firstSeen < cfg.waitTime {
        return Hold(Waiting, WaitRoom.RetryAfter(cfg.waitTime - (now - s.firstSeen)));
      }
      reply := EndWait(id, s, f);
    }

    method EndWait(id: SessionId, was: Session, f: Faults) returns (reply: Reply)
      modifies this`sessions, this`reservations
      ensures var o := LeaveWait(cfg, old(State()), id, was, f); State() == o.world && reply == o.reply
    {
      var s := was.(lastSeenAt := now);
      var ttl;
      if cfg.captchaEnabled {
        s := s.(state := ChallengeRequired);
        ttl := cfg.captchaTTL + CHALLENGE_GRACE;
        if s.absoluteExpiresAt.Some? && s.absoluteExpiresAt.value < now + ttl {
          ttl := s.absoluteExpiresAt.value - now;
        }
        s := s.(expiresAt := Some(now + ttl));
      } else {
        s := s.(state := Admitted, expiresAt := Some(now + cfg.sessionTTL));
        if s.absoluteExpiresAt.Some? && s.absoluteExpiresAt.value < s.expiresAt.value {
          s := s.(expiresAt := s.absoluteExpiresAt);
        }
        ttl := s.expiresAt.value - now;
      }
      if ttl <= 0 {
        return Hold(Expired, 0);
      }
      var saved := SetSession(s, ttl, f.save);
      if !saved {
        return Fail(StoreFailure);
      }
      if !f.capacity {
        var _ := ReserveSession(id, s.expiresAt.value);
      }
      return if cfg.captchaEnabled then Hold(ChallengeRequired, 0) else Allow;
    }

    method Transit(id: SessionId, on: Trigger, target: Sessions.State, f: Faults) returns (reply: Reply)
      requires Valid()
      modifies this
      ensures Valid() && run == Next(old(run), TransitionOne(id, on, target, f))
      ensures reply == Transition(cfg, old(State()), id, on, target, f).reply
    {
      reply := Apply(id, on, target, f);
      run := Next(run, TransitionOne(id, on, target, f));
    }

    method Apply(id: SessionId, on: Trigger, target: Sessions.State, f: Faults) returns (reply: Reply)
      requires cfg.Valid()
      modifies this`sessions, this`reservations
      ensures var o := Transition(cfg, old(State()), id, on, target, f); State() == o.world && reply == o.reply
    {
      if f.enter {
        return Fail(StoreFailure);
      }
      var found := GetSession(id);
      if found.None? {
        return Fail(InvalidSession);
      }
      var s := found.value;
      if s.state == target {
        return Done;
      }
      if !IsLegalTransition(s.state, on, target) {
        return Fail(InvalidTransition);
      }
      reply := EnterState(s, target, f);
    }

    method EnterState(was: Session, target: Sessions.State, f: Faults) returns (reply: Reply)
      requires cfg.Valid()
      modifies this`sessions, this`reservations
      ensures var o := MoveTo(cfg, old(State()), was, target, f); State() == o.world && reply == o.reply
    {
      var s, ttl := Enter(was, target);
      if ttl <= 0 {
        return Fail(SessionExpired);
      }
      var saved := SetSession(s, ttl, f.save);
      if !saved {
        return Fail(StoreFailure);
      }
      if !f.capacity {
        Book(was.id, target, now + ttl);
      }
      return Done;
    }

    /** Manage the reservation of a session that has moved to `target`. */
    method Book(id: SessionId, target: Sessions.State, expiresAt: Time)
      requires cfg.maxSessions > 0
      modifies this`reservations
      ensures State() == Rebook(cfg, old(State()), id, target, expiresAt, false)
    {
      match target {
        case Revoked => reservations := Quota.Release(reservations, id);
        case Expired => reservations := Quota.Release(reservations, id);
        case Admitted => var _ := ReserveSession(id, expiresAt);
        case _ =>
      }
    }

    /** The record of a session that moves to `target`, and how long to store it. */
    method Enter(was: Session, target: Sessions.State) returns (s: Session, ttl: Time)
      ensures s == was.(state := target, lastSeenAt := now, expiresAt := s.expiresAt)
      ensures match target
              case Admitted =>
                s.expiresAt == Some(now + ttl) && now + ttl == Capped(was.absoluteExpiresAt, now + cfg.sessionTTL)
              case Revoked => s.expiresAt.None? && ttl == REVOKED_RETENTION
              case Expired => s.expiresAt == Some(now) && ttl == EXPIRED_RETENTION
              case _ => s.expiresAt == was.expiresAt && ttl == cfg.sessionTTL
    {
      s, ttl := was.(state := target, lastSeenAt := now), cfg.sessionTTL;
      match target {
        case Admitted =>
          s := s.(expiresAt := Some(now + cfg.sessionTTL));
          if s.absoluteExpiresAt.Some? && s.absoluteExpiresAt.value < s.expiresAt.value {
            s := s.(expiresAt := s.absoluteExpiresAt);
          }
          ttl := s.expiresAt.value - now;
        case Revoked =>
          ttl := REVOKED_RETENTION;
          s := s.(expiresAt := None);
        case Expired =>
          ttl := EXPIRED_RETENTION;
          s := s.(expiresAt := Some(now));
        case _ =>
      }
    }

    // ---- challenge.go -------------------------------------------------------------------------

    method IssueChallenge(id: SessionId, draft: ChallengeId, answer: string, f: Faults) returns (reply: Reply)
      requires Valid() && draft !in After(cfg, run).challengeIds
      modifies this
      ensures Valid() && run == Next(old(run), Step.IssueChallenge(id, draft, answer, f))
      ensures reply == Protocol.Issue(cfg, old(State()), id, draft, answer, f).reply
    {
      reply := Issue(id, draft, answer, f);
      run := Next(run, Step.IssueChallenge(id, draft, answer, f));
    }

    method Issue(id: SessionId, draft: ChallengeId, answer: string, f: Faults) returns (reply: Reply)
      modifies this`sessions, this`challenges
      ensures var o := Protocol.Issue(cfg, old(State()), id, draft, answer, f); State() == o.world && reply == o.reply
    {
      if f.enter {
        return Fail(StoreFailure);
      }
      var found := GetSession(id);
      if found.None? {
        return Fail(InvalidSession);
      }
      var s := found.value;
      if s.state != ChallengeRequired {
        return Fail(InvalidTransition);
      }
      if s.IsExpired(now) {
        return Fail(SessionExpired);
      }
      if s.challenge.Some? && !f.lookup {
        var ch := s.challenge.value;
        if ch in challenges && now < challenges[ch].expiresAt && now < challenges[ch].value.expiresAt {
          return Present(ch);
        }
      }
      reply := MintChallenge(s, draft, answer, f);
    }

    method MintChallenge(s: Session, draft: ChallengeId, answer: string, f: Faults) returns (reply: Reply)
      modifies this`sessions, this`challenges
      ensures var o := Mint(cfg, old(State()), s, draft, answer, f); State() == o.world && reply == o.reply
    {
      if f.render {
        return Fail(StoreFailure);
      }
      var c := Challenge(draft, s.id, answer, now, now + cfg.captchaTTL, 0, cfg.maxAttempts);
      var ttl := c.expiresAt - now;
      if s.expiresAt.Some? && s.expiresAt.value < c.expiresAt {
        ttl := s.expiresAt.value - now;
      }
      if ttl <= 0 {
        return Fail(SessionExpired);
      }
      var put := SetChallenge(c, ttl, f.put);
      if !put {
        return Fail(StoreFailure);
      }
      var sessionTTL := RemainingTTL(s, now, ttl);
      if sessionTTL > ttl {
        sessionTTL := ttl;
      }
      var saved := SetSession(s.(challenge := Some(draft)), sessionTTL, f.save);
      if !saved {
        var _ := DeleteChallenge(draft, f.undo);
        return Fail(StoreFailure);
      }
      return Present(draft);
    }

    method ValidateChallenge(id: SessionId, answer: string, f: Faults) returns (reply: Reply)
      requires Valid()
      modifies this
      ensures Valid() && run == Next(old(run), Step.ValidateChallenge(id, answer, f))
      ensures reply == Protocol.Validate(cfg, old(State()), id, answer, f).reply
    {
      reply := Validate(id, answer, f);
      run := Next(run, Step.ValidateChallenge(id, answer, f));
    }

    method Validate(id: SessionId, answer: string, f: Faults) returns (reply: Reply)
      modifies this`sessions, this`challenges, this`reservations
      ensures var o := Protocol.Validate(cfg, old(State()), id, answer, f); State() == o.world && reply == o.reply
    {
      if answer == "" || |answer| > cfg.captchaLength {
        return Fail(WrongAnswer);
      }
      if f.enter {
        return Fail(StoreFailure);
      }
      var found := GetSession(id);
      if found.None? {
        return Fail(InvalidSession);
      }
      var s := found.value;
      if s.state != ChallengeRequired {
        return Fail(InvalidTransition);
      }
      if s.challenge.None? {
        return Fail(ChallengeNotFound);
      }
      if f.lookup {
        return Fail(StoreFailure);
      }
      if !(s.challenge.value in challenges && now < challenges[s.challenge.value].expiresAt) {
        return Fail(ChallengeNotFound);
      }
      var c := challenges[s.challenge.value].value;
      if now >= c.expiresAt {
        var _ := DeleteChallenge(c.id, f.delete);
        return Fail(ChallengeExpired);
      }
      if answer != c.answer {
        reply := WrongGuess(s, c, f);
      } else {
        reply := RightGuess(s, c, f);
      }
    }

    method WrongGuess(s: Session, c: Challenge, f: Faults) returns (reply: Reply)
      modifies this`sessions, this`challenges
      ensures var o := Reject(cfg, old(State()), s, c, f); State() == o.world && reply == o.reply
    {
      var counted := c.(attempts := c.attempts + 1);
      if counted.attempts >= counted.maxAttempts {
        var _ := DeleteChallenge(c.id, f.delete);
        var next := s.(challenge := None);
        if cfg.waitEnabled {
          next := next.(state := Waiting, firstSeen := now);
          var ttl := cfg.waitTime + WAIT_GRACE;
          if s.absoluteExpiresAt.Some? && s.absoluteExpiresAt.value < now + ttl {
            ttl := s.absoluteExpiresAt.value - now;
          }
          if ttl > 0 {
            next := next.(expiresAt := Some(now + ttl));
          }
        }
        var saved := SetSession(next, RemainingTTL(next, now, cfg.sessionTTL), f.save);
        if !saved {
          return Fail(StoreFailure);
        }
        return Fail(MaxAttemptsExceeded);
      }
      var put := SetChallenge(counted, c.expiresAt - now, f.put);
      if !put {
        return Fail(StoreFailure);
      }
      return Fail(WrongAnswer);
    }

    method RightGuess(s: Session, c: Challenge, f: Faults) returns (reply: Reply)
      modifies this`sessions, this`challenges, this`reservations
      ensures var o := Accept(cfg, old(State()), s, c, f); State() == o.world && reply == o.reply
    {
      var deleted := DeleteChallenge(c.id, f.delete);
      if !deleted {
        return Fail(StoreFailure);
      }
      var next := s.(challenge := None, state := Admitted, lastSeenAt := now, expiresAt := Some(now + cfg.sessionTTL));
      if next.absoluteExpiresAt.Some? && next.absoluteExpiresAt.value < next.expiresAt.value {
        next := next.(expiresAt := next.absoluteExpiresAt);
      }
      var ttl := next.expiresAt.value - now;
      assert now + ttl == Capped(s.absoluteExpiresAt, now + cfg.sessionTTL);
      if ttl <= 0 {
        return Fail(SessionExpired);
      }
      var saved := SetSession(next, ttl, f.save);
      if !saved {
        var _ := SetChallenge(c, c.expiresAt - now, f.undo);
        return Fail(StoreFailure);
      }
      if !f.capacity {
        var _ := ReserveSession(s.id, next.expiresAt.value);
      }
      return Done;
    }

    // ---- session.go ---------------------------------------------------------------------------

    method RevokeSession(id: SessionId, f: Faults) returns (reply: Reply)
      requires Valid()
      modifies this
      ensures Valid() && run == Next(old(run), RevokeOne(id, f))
      ensures reply == Protocol.RevokeSession(old(State()), id, f).reply
    {
      reply := Revoke(id, f);
      run := Next(run, RevokeOne(id, f));
    }

    method Revoke(id: SessionId, f: Faults) returns (reply: Reply)
      modifies this`sessions, this`reservations
      ensures var o := Protocol.RevokeSession(old(State()), id, f); State() == o.world && reply == o.reply
    {
      if f.enter {
        return Fail(StoreFailure);
      }
      var found := GetSession(id);
      if found.None? {
        return Fail(InvalidSession);
      }
      var s := found.value;
      if s.state == Revoked {
        return Fail(SessionRevoked);
      }
      s := s.(state := Revoked, expiresAt := None, lastSeenAt := now);
      var saved := SetSession(s, REVOKED_RETENTION, f.save);
      if !saved {
        return Fail(StoreFailure);
      }
      if !f.capacity {
        reservations := Quota.Release(reservations, id);
      }
      return Done;
    }

    method RotateSession(id: SessionId, successor: SessionId, f: Faults) returns (reply: Reply)
      requires Valid() && successor !in After(cfg, run).sessionIds
      modifies this
      ensures Valid() && run == Next(old(run), RotateOne(id, successor, f))
      ensures reply == Protocol.RotateSession(cfg, old(State()), id, successor, f).reply
    {
      reply := Rotate(id, successor, f);
      run := Next(run, RotateOne(id, successor, f));
    }

    method Rotate(id: SessionId, successor: SessionId, f: Faults) returns (reply: Reply)
      modifies this`sessions, this`reservations
      ensures var o := Protocol.RotateSession(cfg, old(State()), id, successor, f);
        State() == o.world && reply == o.reply
    {
      if f.enter {
        return Fail(StoreFailure);
      }
      var found := GetSession(id);
      if found.None? {
        return Fail(InvalidSession);
      }
      var s := found.value;
      if s.state == Revoked {
        return Fail(SessionRevoked);
      }
      if s.IsExpired(now) {
        return Fail(SessionExpired);
      }
      if s.state != Admitted && s.state != Rotating {
        return Fail(InvalidTransition);
      }
      if s.maxRenewals > 0 && s.renewalCount >= s.maxRenewals {
        return Fail(RenewalLimitReached);
      }
      var expiry := now + cfg.sessionTTL;
      if s.absoluteExpiresAt.Some? && s.absoluteExpiresAt.value < expiry {
        expiry := s.absoluteExpiresAt.value;
      }
      if expiry <= now {
        return Fail(SessionExpired);
      }
      reply := Swap(s, successor, expiry, f);
    }

    method Swap(s: Session, successor: SessionId, expiry: Time, f: Faults) returns (reply: Reply)
      requires expiry == Capped(s.absoluteExpiresAt, now + cfg.sessionTTL)
      modifies this`sessions, this`reservations
      ensures var o := Replace(cfg, old(State()), s, successor, f); State() == o.world && reply == o.reply
    {
      var next := Session(successor, Admitted, s.firstSeen, Some(expiry), s.absoluteExpiresAt,
                          s.renewalCount + 1, s.maxRenewals, s.createdAt, now, None);
      var saved := SetSession(next, expiry - now, f.save);
      if !saved {
        return Fail(StoreFailure);
      }
      if f.delete {
        if !f.undo {
          sessions := sessions - {successor};
        }
        return Fail(StoreFailure);
      }
      sessions := sessions - {s.id};
      if !f.capacity {
        reservations := Quota.Move(reservations, s.id, successor, expiry).0;
      }
      return Replaced(successor);
    }
  }

  /** What the theorems about runs say of an engine's fields, and of one session in them. */
  lemma EngineIsSafe(e: Engine, id: SessionId)
    requires e.Valid() && EngineRun(e.cfg, e.run)
    ensures var h := After(e.cfg, e.run).history;
      && |Capacity.ActiveIds(e.State())| <= e.cfg.maxSessions + Capacity.Strikes(e.cfg, h)
      && (e.cfg.waitEnabled && e.cfg.captchaEnabled && GuessBudget.FirstContactAt(h, id).Some? ==>
            GuessBudget.WrongGuesses(h, id)
              <= e.cfg.maxAttempts * ((e.now - GuessBudget.FirstContactAt(h, id).value) / e.cfg.waitTime)
                 + GuessBudget.Extra(e.cfg, h, id))
      && (e.cfg.waitEnabled && e.cfg.captchaEnabled && id in e.sessions && e.sessions[id].value.state == Admitted ==>
            Patience.Earned(e.cfg, h, id))
      && (id in e.sessions ==>
            && e.sessions[id].value.absoluteExpiresAt == Lifetime.ChainDeadline(e.cfg, h, id)
            && e.sessions[id].value.renewalCount == Lifetime.Depth(h, id))
  {
    Capacity.CapacityHolds(e.cfg, e.run);
    if e.cfg.waitEnabled && e.cfg.captchaEnabled {
      var since := GuessBudget.FirstContactAt(After(e.cfg, e.run).history, id);
      if since.Some? {
        GuessBudget.GuessBudgetHolds(e.cfg, e.run, id, since.value);
      }
      if id in e.sessions && e.sessions[id].value.state == Admitted {
        Patience.AdmissionIsEarned(e.cfg, e.run, id);
      }
    }
    if id in e.sessions {
      Lifetime.ChainFactsHold(e.cfg, e.run, id);
    }
  }
}
