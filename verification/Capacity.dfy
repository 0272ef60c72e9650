/**
 Capacity. At most `maxSessions` live sessions are waiting, challenged or admitted, counting out one
 for every expulsion that lets a session outlast its reservation (an expulsion extends the session and
 does not renew the reservation) and for every store failure in an operation that extends or replaces a
 session.
 */
module Capacity {
  import opened Basics
  import opened TtlMaps
  import opened Sessions
  import opened Protocol
  import opened Runs
  import opened Moves
  import Lifetime
  import Quota

  predicate Active(w: World, id: SessionId) {
    IsLive(w.sessions, id, w.now) && w.sessions[id].value.state in {Waiting, ChallengeRequired, Admitted}
  }

  ghost function ActiveIds(w: World): set<SessionId> {
    set id | id in w.sessions && Active(w, id)
  }

  /** A reservation that expires no earlier than the session, in its own record or in the store. */
  predicate Covered(w: World, id: SessionId) {
    && id in w.reservations && id in w.sessions
    && w.sessions[id].expiresAt <= w.reservations[id]
    && w.sessions[id].value.expiresAt.Some?
    && w.sessions[id].value.expiresAt.value <= w.reservations[id]
  }

  /** The event extends or replaces a session, which moves its deadline. */
  predicate Extends(event: Event) {
    event.WaitPassed? || event.AdmittedAfterWait? || event.Solved? || event.Rotated?
  }

  /** How far the reservation of a session that faces a challenge reached when its wait was over. */
  function BookedUntil(cfg: Config, h: History, id: SessionId): Time {
    match h
    case Start => 0
    case Then(past, event, _) =>
      if event.WaitPassed? && event.id == id then
        Capped(Lifetime.ChainDeadline(cfg, past, id), event.at + cfg.captchaTTL + CHALLENGE_GRACE)
      else BookedUntil(cfg, past, id)
  }

  /** The event is an expulsion, after which the session has longer to live than its reservation. */
  predicate Overstays(cfg: Config, past: History, event: Event) {
    event.Expelled? &&
      Capped(Lifetime.ChainDeadline(cfg, past, event.id), event.at + cfg.waitTime + WAIT_GRACE)
        > BookedUntil(cfg, past, event.id)
  }

  function Strikes(cfg: Config, h: History): nat {
    match h
    case Start => 0
    case Then(past, event, faulty) =>
      Strikes(cfg, past) + if Overstays(cfg, past, event) || (faulty && Extends(event)) then 1 else 0
  }

  /** Sessions whose reservation may have fallen behind. */
  function Behind(cfg: Config, h: History): set<SessionId> {
    match h
    case Start => {}
    case Then(past, event, faulty) =>
      var was := Behind(cfg, past);
      if Overstays(cfg, past, event) then was + {event.id}
      else if event.Rotated? then
        (if faulty then was + {event.successor}
         else if event.id in was then was - {event.id} + {event.successor} else was)
      else if faulty && Extends(event) then was + {event.id}
      else was
  }

  lemma {:induction false} BehindIsFew(cfg: Config, h: History)
    ensures |Behind(cfg, h)| <= Strikes(cfg, h)
  {
    if h.Then? {
      BehindIsFew(cfg, h.past);
      var was := Behind(cfg, h.past);
      if h.event.Rotated? && h.event.id in was {
        assert |was - {h.event.id}| == |was| - 1;
      }
    }
  }

  // ---- what operations do to reservations ---------------------------------------------------

  /** The unexpired reservation of `id` is left alone. */
  predicate Kept(w: World, v: World, id: SessionId) {
    id in w.reservations && w.now < w.reservations[id] ==>
      id in v.reservations && v.reservations[id] == w.reservations[id]
  }

  predicate Booked(w: World, v: World, event: Event, faulty: bool, id: SessionId) {
    if Extends(event) && event.id == id then
      event.Rotated? || (!faulty && id in w.reservations ==> Exact(v, id))
    else if event.Contacted? && event.id == id then Exact(v, id)
    else if event.Rotated? && event.successor == id then
      !faulty && event.id in w.reservations ==> Exact(v, id)
    else Kept(w, v, id)
  }

  predicate Exact(v: World, id: SessionId) {
    id in v.sessions && id in v.reservations && v.reservations[id] == v.sessions[id].expiresAt
  }

  lemma RenewBooks(cfg: Config, w: World, id: SessionId, expiresAt: Time, fails: bool, other: SessionId)
    requires cfg.maxSessions > 0
    ensures var v := Renew(cfg, w, id, expiresAt, fails);
      && (other != id ==> Kept(w, v, other))
      && (!fails && id in w.reservations ==> id in v.reservations && v.reservations[id] == expiresAt)
      && (|w.reservations| <= cfg.maxSessions ==> |v.reservations| <= cfg.maxSessions)
      && v.sessions == w.sessions && v.now == w.now
  {
    if |w.reservations| <= cfg.maxSessions {
      Quota.ReserveBound(w.reservations, id, cfg.maxSessions, w.now, expiresAt);
    }
  }

  lemma ContactBooks(cfg: Config, w: World, id: SessionId, f: Faults, other: SessionId)
    requires cfg.maxSessions > 0
    ensures other != id || Contact(cfg, w, id, f).event.Contacted? ==>
      Booked(w, Contact(cfg, w, id, f).world, Contact(cfg, w, id, f).event, f.Any(), other)
  {
    var expiresAt := Candidate(cfg, w.now, id).expiresAt.value;
    var reserved := TryReserve(cfg, w, id, expiresAt).0;
    assert other != id ==> Kept(w, reserved, other) && Kept(w, ReleaseSlot(reserved, id, f.undo), other);
  }

  lemma ContactKeepsBound(cfg: Config, w: World, id: SessionId, f: Faults)
    requires cfg.maxSessions > 0 && |w.reservations| <= cfg.maxSessions
    ensures |Contact(cfg, w, id, f).world.reservations| <= cfg.maxSessions
  {
    var expiresAt := Candidate(cfg, w.now, id).expiresAt.value;
    var reserved := TryReserve(cfg, w, id, expiresAt).0;
    Quota.ReserveBound(w.reservations, id, cfg.maxSessions, w.now, expiresAt);
    Quota.MoveBound(reserved.reservations, id, id, expiresAt);
  }

  lemma LeaveWaitBooks(cfg: Config, w: World, id: SessionId, s: Session, f: Faults, other: SessionId)
    requires cfg.maxSessions > 0 && s.id == id
    ensures var o := LeaveWait(cfg, w, id, s, f); Booked(w, o.world, o.event, f.Any(), other)
    ensures |w.reservations| <= cfg.maxSessions ==> |LeaveWait(cfg, w, id, s, f).world.reservations| <= cfg.maxSessions
  {
    var ttl := if cfg.captchaEnabled then cfg.captchaTTL + CHALLENGE_GRACE else cfg.sessionTTL;
    var expiresAt := Capped(s.absoluteExpiresAt, w.now + ttl);
    var target := if cfg.captchaEnabled then ChallengeRequired else Admitted;
    var next := s.(state := target, lastSeenAt := w.now, expiresAt := Some(expiresAt));
    var event := if cfg.captchaEnabled then WaitPassed(id, w.now) else AdmittedAfterWait(id, w.now);
    RenewalIsBooked(cfg, w, SaveSession(w, next, expiresAt - w.now), expiresAt, f, event, other);
  }

  lemma EvaluateBooks(cfg: Config, w: World, id: SessionId, f: Faults, other: SessionId)
    requires cfg.maxSessions > 0
    requires id in w.sessions ==> w.sessions[id].value.id == id && w.sessions[id].value.state != New
    ensures Booked(w, Evaluate(cfg, w, id, f).world, Evaluate(cfg, w, id, f).event, f.Any(), other)
    ensures |w.reservations| <= cfg.maxSessions ==> |Evaluate(cfg, w, id, f).world.reservations| <= cfg.maxSessions
  {
    if IsLive(w.sessions, id, w.now) {
      LeaveWaitBooks(cfg, w, id, w.sessions[id].value, f, other);
    }
  }

  lemma IssueBooks(cfg: Config, w: World, id: SessionId, draft: ChallengeId, answer: string, f: Faults,
                   other: SessionId)
    ensures var o := Issue(cfg, w, id, draft, answer, f); Booked(w, o.world, o.event, f.Any(), other)
    ensures Issue(cfg, w, id, draft, answer, f).world.reservations == w.reservations
  {
  }

  lemma AcceptBooks(cfg: Config, w: World, s: Session, c: Challenge, f: Faults, other: SessionId)
    requires cfg.maxSessions > 0
    ensures Booked(w, Accept(cfg, w, s, c, f).world, Accept(cfg, w, s, c, f).event, f.Any(), other)
    ensures |w.reservations| <= cfg.maxSessions ==> |Accept(cfg, w, s, c, f).world.reservations| <= cfg.maxSessions
  {
    if f.delete || f.save || Capped(s.absoluteExpiresAt, w.now + cfg.sessionTTL) <= w.now {
      RefusalBooksNothing(cfg, w, s, c, f, other);
    } else {
      AdmissionIsRenewal(cfg, w, s, c, f);
      var saved := Saved(cfg, w, s, c);
      RenewalIsBooked(cfg, w, saved, saved.sessions[s.id].expiresAt, f, Solved(s.id, c.id, c.answer, w.now), other);
    }
  }

  /** The right answer has been accepted and the session saved. */
  function Saved(cfg: Config, w: World, s: Session, c: Challenge): World {
    var expiresAt := Capped(s.absoluteExpiresAt, w.now + cfg.sessionTTL);
    var next := s.(challenge := None, state := Admitted, lastSeenAt := w.now, expiresAt := Some(expiresAt));
    SaveSession(DropChallenge(w, c.id), next, expiresAt - w.now)
  }

  lemma AdmissionIsRenewal(cfg: Config, w: World, s: Session, c: Challenge, f: Faults)
    requires !f.delete && !f.save && w.now < Capped(s.absoluteExpiresAt, w.now + cfg.sessionTTL)
    ensures var saved := Saved(cfg, w, s, c);
      Accept(cfg, w, s, c, f)
      == Outcome(Renew(cfg, saved, s.id, saved.sessions[s.id].expiresAt, f.capacity), Done,
                 Solved(s.id, c.id, c.answer, w.now))
  {
  }

  lemma RefusalBooksNothing(cfg: Config, w: World, s: Session, c: Challenge, f: Faults, other: SessionId)
    requires f.delete || f.save || Capped(s.absoluteExpiresAt, w.now + cfg.sessionTTL) <= w.now
    ensures Booked(w, Accept(cfg, w, s, c, f).world, Accept(cfg, w, s, c, f).event, f.Any(), other)
    ensures Accept(cfg, w, s, c, f).world.reservations == w.reservations
  {
  }

  /** A session saved with a later deadline, and its reservation renewed. */
  lemma RenewalIsBooked(cfg: Config, w: World, saved: World, expiresAt: Time, f: Faults, event: Event, other: SessionId)
    requires cfg.maxSessions > 0 && Extends(event) && !event.Rotated?
    requires saved.reservations == w.reservations && saved.now == w.now
    requires event.id in saved.sessions && saved.sessions[event.id].expiresAt == expiresAt
    ensures var v := Renew(cfg, saved, event.id, expiresAt, f.capacity);
      && Booked(w, v, event, f.Any(), other)
      && (|w.reservations| <= cfg.maxSessions ==> |v.reservations| <= cfg.maxSessions)
  {
    RenewBooks(cfg, saved, event.id, expiresAt, f.capacity, other);
  }

  lemma RejectBooks(cfg: Config, w: World, s: Session, c: Challenge, f: Faults)
    ensures Reject(cfg, w, s, c, f).world.reservations == w.reservations
    ensures !Extends(Reject(cfg, w, s, c, f).event) && !Reject(cfg, w, s, c, f).event.Contacted?
  {
  }

  lemma ValidateBooks(cfg: Config, s: System, id: SessionId, answer: string, f: Faults, other: SessionId)
    requires cfg.maxSessions > 0 && WellFormed(cfg, s)
    ensures var o := Validate(cfg, s.world, id, answer, f); Booked(s.world, o.world, o.event, f.Any(), other)
    ensures |s.world.reservations| <= cfg.maxSessions ==>
      |Validate(cfg, s.world, id, answer, f).world.reservations| <= cfg.maxSessions
  {
    var w := s.world;
    if Before(w, id, ChallengeRequired) && w.sessions[id].value.challenge.Some?
       && Answerable(w, id, w.sessions[id].value.challenge.value) {
      var ch := w.sessions[id].value.challenge.value;
      assert ChallengeOK(cfg, s, ch, w.challenges[ch]);
      var (v, c) := (w.sessions[id].value, w.challenges[ch].value);
      ValidateCases(cfg, w, id, ch, answer, f);
      AcceptBooks(cfg, w, v, c, f, other);
      RejectBooks(cfg, w, v, c, f);
      var o := Validate(cfg, w, id, answer, f);
      assert o == Accept(cfg, w, v, c, f)
        || (o.world.reservations == w.reservations && !Extends(o.event) && !o.event.Contacted?);
    } else {
      ValidateNeedsChallenge(cfg, w, id, answer, f);
    }
  }

  lemma RevokeBooks(cfg: Config, w: World, id: SessionId, f: Faults, other: SessionId)
    ensures other != id || !RevokeSession(w, id, f).event.Withdrawn? ==>
      Booked(w, RevokeSession(w, id, f).world, RevokeSession(w, id, f).event, f.Any(), other)
    ensures |w.reservations| <= cfg.maxSessions ==> |RevokeSession(w, id, f).world.reservations| <= cfg.maxSessions
  {
    Quota.MoveBound(w.reservations, id, id, 0);
  }

  lemma RotateBooks(cfg: Config, w: World, id: SessionId, successor: SessionId, f: Faults, other: SessionId)
    requires id in w.sessions ==> w.sessions[id].value.id == id && id != successor
    ensures var o := RotateSession(cfg, w, id, successor, f);
      && Booked(w, o.world, o.event, f.Any(), other)
      && (o.event.Rotated? && id in o.world.sessions ==> o.world.reservations == w.reservations)
      && (|w.reservations| <= cfg.maxSessions ==> |o.world.reservations| <= cfg.maxSessions)
  {
    if id in w.sessions {
      var expiresAt := Capped(w.sessions[id].value.absoluteExpiresAt, w.now + cfg.sessionTTL);
      Quota.MoveBound(w.reservations, id, successor, expiresAt);
    }
  }

  // ---- coverage over runs -------------------------------------------------------------------

  predicate CoverOK(cfg: Config, s: System, id: SessionId) {
    Active(s.world, id) && id !in Behind(cfg, s.history) ==>
      && Covered(s.world, id)
      && (cfg.waitEnabled && s.world.sessions[id].value.state == ChallengeRequired ==>
            BookedUntil(cfg, s.history, id) <= s.world.reservations[id])
  }

  ghost predicate AllCovered(cfg: Config, s: System) {
    && |s.world.reservations| <= cfg.maxSessions
    && forall id :: CoverOK(cfg, s, id)
  }

  predicate KnowsDeadline(cfg: Config, s: System, id: SessionId) {
    id in s.world.sessions ==>
      s.world.sessions[id].value.absoluteExpiresAt == Lifetime.ChainDeadline(cfg, s.history, id)
  }

  lemma MoveKeepsCover(cfg: Config, s: System, t: System, id: SessionId)
    requires cfg.Valid() && Move(cfg, s, t) && KnowsDeadline(cfg, s, id)
    requires id in s.world.sessions ==> SessionOK(cfg, s, id, s.world.sessions[id])
    requires Booked(s.world, t.world, t.history.event, t.history.faulty, id)
    requires CoverOK(cfg, s, id) && CoverOK(cfg, s, t.history.event.id)
    requires t.history.event.Rotated? && t.history.event.id == id && id in t.world.sessions ==>
      t.world.reservations == s.world.reservations
    ensures CoverOK(cfg, t, id)
  {
    if !Writes(t.history.event, id) {
      MovesLeaveOthers(cfg, s, t, id);
    }
  }

  lemma OperationBooks(cfg: Config, s: System, step: Step, other: SessionId)
    requires cfg.Valid() && WellFormed(cfg, s) && Fresh(s, step) && !step.TransitionOne? && !IsClockStep(step)
    requires other in s.world.sessions
    ensures var t := Apply(cfg, s, step);
      && (Booked(s.world, t.world, t.history.event, t.history.faulty, other) || !Active(t.world, other))
      && (t.history.event.Rotated? && t.history.event.id == other && other in t.world.sessions ==>
            t.world.reservations == s.world.reservations)
  {
    if step.RevokeOne? || step.RotateOne? {
      EndingBooks(cfg, s, step, other);
    } else {
      KnowSession(cfg, s, step.id);
      match step
      case FirstContact(id, f) =>
        KnowSession(cfg, s, other);
        ContactBooks(cfg, s.world, id, f, other);
      case Request(id, f) => EvaluateBooks(cfg, s.world, id, f, other);
      case IssueChallenge(id, draft, answer, f) => IssueBooks(cfg, s.world, id, draft, answer, f, other);
      case ValidateChallenge(id, answer, f) => ValidateBooks(cfg, s, id, answer, f, other);
      assert !Apply(cfg, s, step).history.event.Rotated?;
    }
  }

  lemma EndingBooks(cfg: Config, s: System, step: Step, other: SessionId)
    requires WellFormed(cfg, s) && Fresh(s, step) && other in s.world.sessions
    requires step.RevokeOne? || step.RotateOne?
    ensures var t := Apply(cfg, s, step);
      && (Booked(s.world, t.world, t.history.event, t.history.faulty, other) || !Active(t.world, other))
      && (t.history.event.Rotated? && t.history.event.id == other && other in t.world.sessions ==>
            t.world.reservations == s.world.reservations)
  {
    KnowSession(cfg, s, step.id);
    KnowSession(cfg, s, other);
    match step
    case RevokeOne(id, f) => RevokeBooks(cfg, s.world, id, f, other);
    case RotateOne(id, successor, f) => RotateBooks(cfg, s.world, id, successor, f, other);
  }

  lemma KnowSession(cfg: Config, s: System, id: SessionId)
    requires WellFormed(cfg, s)
    ensures id in s.world.sessions ==> SessionOK(cfg, s, id, s.world.sessions[id])
  {
  }

  /** Sessions appear only by first contact and by rotation. */
  lemma OnlyTheseAppear(cfg: Config, s: System, step: Step, id: SessionId)
    requires cfg.Valid() && WellFormed(cfg, s) && Fresh(s, step) && !step.TransitionOne? && !IsClockStep(step)
    requires id !in s.world.sessions && id in Apply(cfg, s, step).world.sessions
    ensures (step.FirstContact? && step.id == id && Apply(cfg, s, step).history.event.Contacted?) || step.RotateOne?
  {
    OperationIsMove(cfg, s, step);
    if !Writes(Apply(cfg, s, step).history.event, id) {
      MovesLeaveOthers(cfg, s, Apply(cfg, s, step), id);
    }
  }

  /** A session that appears is reserved for, or counted as behind. */
  lemma NewSessionBooked(cfg: Config, s: System, step: Step, id: SessionId)
    requires cfg.Valid() && WellFormed(cfg, s) && Fresh(s, step) && !step.TransitionOne? && !IsClockStep(step)
    requires id !in s.world.sessions && id in Apply(cfg, s, step).world.sessions
    ensures var t := Apply(cfg, s, step);
      Booked(s.world, t.world, t.history.event, t.history.faulty, id)
  {
    OnlyTheseAppear(cfg, s, step, id);
    if step.FirstContact? {
      ContactBooks(cfg, s.world, step.id, step.f, id);
    } else {
      KnowSession(cfg, s, step.id);
      RotateBooks(cfg, s.world, step.id, step.successor, step.f, id);
    }
  }

  lemma OperationKeepsBound(cfg: Config, s: System, step: Step)
    requires cfg.Valid() && WellFormed(cfg, s) && Fresh(s, step) && !step.TransitionOne? && !IsClockStep(step)
    requires |s.world.reservations| <= cfg.maxSessions
    ensures |Apply(cfg, s, step).world.reservations| <= cfg.maxSessions
  {
    match step
    case FirstContact(id, f) => ContactKeepsBound(cfg, s.world, id, f);
    case Request(id, f) => KnowSession(cfg, s, id); EvaluateBooks(cfg, s.world, id, f, id);
    case IssueChallenge(id, draft, answer, f) => IssueBooks(cfg, s.world, id, draft, answer, f, id);
    case ValidateChallenge(id, answer, f) => ValidateBooks(cfg, s, id, answer, f, id);
    case RevokeOne(id, f) => RevokeBooks(cfg, s.world, id, f, id);
    case RotateOne(id, successor, f) =>
      KnowSession(cfg, s, id);
      RotateBooks(cfg, s.world, id, successor, f, id);
  }

  lemma OperationKeepsCover(cfg: Config, s: System, step: Step, id: SessionId)
    requires cfg.Valid() && WellFormed(cfg, s) && Fresh(s, step) && !step.TransitionOne? && !IsClockStep(step)
    requires AllCovered(cfg, s) && KnowsDeadline(cfg, s, id)
    ensures CoverOK(cfg, Apply(cfg, s, step), id)
  {
    var t := Apply(cfg, s, step);
    if Active(t.world, id) {
      OperationIsMove(cfg, s, step);
      KnowSession(cfg, s, id);
      if id in s.world.sessions {
        OperationBooks(cfg, s, step, id);
      } else {
        NewSessionBooked(cfg, s, step, id);
      }
      assert CoverOK(cfg, s, id) && CoverOK(cfg, s, t.history.event.id);
      MoveKeepsCover(cfg, s, t, id);
    }
  }

  lemma ClockKeepsCover(cfg: Config, s: System, step: Step)
    requires IsClockStep(step) && AllCovered(cfg, s)
    ensures AllCovered(cfg, Apply(cfg, s, step))
  {
    var t := Apply(cfg, s, step);
    Quota.LiveOnlyShrinks(s.world.reservations, s.world.now);
    forall id ensures CoverOK(cfg, t, id) {
      assert CoverOK(cfg, s, id);
    }
  }

  lemma {:induction false} RunsAreCovered(cfg: Config, run: Run)
    requires cfg.Valid() && EngineRun(cfg, run)
    ensures AllCovered(cfg, After(cfg, run))
  {
    match run
    case Init(_) =>
    case Next(before, step) =>
      RunsAreCovered(cfg, before);
      RunsAreWellFormed(cfg, before);
      if IsClockStep(step) {
        ClockKeepsCover(cfg, After(cfg, before), step);
      } else {
        OperationKeepsBound(cfg, After(cfg, before), step);
        Lifetime.RunsAreBounded(cfg, before);
        forall id ensures CoverOK(cfg, After(cfg, run), id) {
          OperationKeepsCover(cfg, After(cfg, before), step, id);
        }
      }
  }

  /** Reserved sessions are few, so covered ones are. */
  lemma CoveredIsFew(w: World, ids: set<SessionId>)
    requires forall id | id in ids :: id in w.reservations
    ensures |ids| <= |w.reservations|
  {
    Quota.SubsetSize(ids, w.reservations.Keys);
    assert |w.reservations.Keys| == |w.reservations|;
  }

  /**
   The capacity bound, at any point of any run: live sessions that wait, face a challenge or are
   admitted exceed `maxSessions` by at most one for each strike. Without strikes each of them holds a
   reservation that outlives it, and they number at most `maxSessions`.
   */
  lemma CapacityHolds(cfg: Config, run: Run)
    requires cfg.Valid() && EngineRun(cfg, run)
    ensures var end := After(cfg, run);
      && |ActiveIds(end.world)| <= cfg.maxSessions + Strikes(cfg, end.history)
      && (Strikes(cfg, end.history) == 0 ==> forall id | Active(end.world, id) :: Covered(end.world, id))
  {
    RunsAreCovered(cfg, run);
    var end := After(cfg, run);
    var (active, behind) := (ActiveIds(end.world), Behind(cfg, end.history));
    BehindIsFew(cfg, end.history);
    forall id | id in active - behind ensures id in end.world.reservations {
      assert CoverOK(cfg, end, id);
    }
    CoveredIsFew(end.world, active - behind);
    Quota.SubsetSize(active * behind, behind);
    assert active == (active - behind) + (active * behind);
    forall id | Active(end.world, id) && Strikes(cfg, end.history) == 0 ensures Covered(end.world, id) {
      assert CoverOK(cfg, end, id) && behind == {};
    }
  }

  // ---- configurations in which expulsions do no harm -------------------------------------------

  /**
   No session is ever sent back to the wait room, or the absolute deadline comes before any reservation
   made on leaving it could run out.
   */
  predicate Sheltered(cfg: Config) {
    || !cfg.waitEnabled || !cfg.captchaEnabled
    || 0 < cfg.absoluteLifetime <= cfg.waitTime + cfg.captchaTTL + CHALLENGE_GRACE
  }

  /** The absolute deadline is within reach of the reservation made, or to be made, when the wait is over. */
  predicate ShelterOK(cfg: Config, s: System, id: SessionId) {
    id in s.world.sessions ==>
      var v := s.world.sessions[id].value;
      v.state in {Waiting, ChallengeRequired} ==>
        && v.absoluteExpiresAt.Some?
        && v.absoluteExpiresAt.value <= v.firstSeen + cfg.absoluteLifetime
        && (v.state == ChallengeRequired ==> v.absoluteExpiresAt.value <= BookedUntil(cfg, s.history, id))
  }

  lemma MoveKeepsShelter(cfg: Config, s: System, t: System, id: SessionId)
    requires cfg.Valid() && cfg.waitEnabled && cfg.captchaEnabled && Sheltered(cfg)
    requires Move(cfg, s, t) && KnowsDeadline(cfg, s, id) && ShelterOK(cfg, s, id)
    requires id in s.world.sessions ==> SessionOK(cfg, s, id, s.world.sessions[id])
    ensures ShelterOK(cfg, t, id)
  {
    if !Writes(t.history.event, id) {
      MovesLeaveOthers(cfg, s, t, id);
    }
  }

  lemma ShelteredDoNotOverstay(cfg: Config, s: System, t: System, id: SessionId)
    requires Move(cfg, s, t) && KnowsDeadline(cfg, s, id) && ShelterOK(cfg, s, id) && t.history.event.id == id
    ensures !Overstays(cfg, s.history, t.history.event)
  {
  }

  lemma {:induction false} RunsAreSheltered(cfg: Config, run: Run)
    requires cfg.Valid() && cfg.waitEnabled && cfg.captchaEnabled && Sheltered(cfg) && EngineRun(cfg, run)
    ensures forall id :: ShelterOK(cfg, After(cfg, run), id)
  {
    match run
    case Init(_) =>
    case Next(before, step) =>
      RunsAreSheltered(cfg, before);
      forall id ensures ShelterOK(cfg, After(cfg, run), id) {
        StepKeepsShelter(cfg, before, step, id);
      }
  }

  lemma StepKeepsShelter(cfg: Config, before: Run, step: Step, id: SessionId)
    requires cfg.Valid() && cfg.waitEnabled && cfg.captchaEnabled && Sheltered(cfg)
    requires EngineRun(cfg, Next(before, step)) && ShelterOK(cfg, After(cfg, before), id)
    ensures ShelterOK(cfg, After(cfg, Next(before, step)), id)
    ensures var h := After(cfg, Next(before, step)).history;
      h.Then? && h.event.id == id && !IsClockStep(step) ==> !Overstays(cfg, h.past, h.event)
  {
    if !IsClockStep(step) {
      RunsAreWellFormed(cfg, before);
      Lifetime.RunsAreBounded(cfg, before);
      OperationIsMove(cfg, After(cfg, before), step);
      MoveKeepsShelter(cfg, After(cfg, before), After(cfg, Next(before, step)), id);
      if After(cfg, Next(before, step)).history.event.id == id {
        ShelteredDoNotOverstay(cfg, After(cfg, before), After(cfg, Next(before, step)), id);
      }
    }
  }

  /** Then only store failures can strike. */
  lemma {:induction false} ShelterPreventsStrikes(cfg: Config, run: Run)
    requires cfg.Valid() && Sheltered(cfg) && EngineRun(cfg, run) && FaultFree(After(cfg, run).history)
    ensures Strikes(cfg, After(cfg, run).history) == 0
  {
    if run.Next? {
      ShelterPreventsStrikes(cfg, run.before);
      if !IsClockStep(run.step) {
        RunsAreWellFormed(cfg, run.before);
        OperationIsMove(cfg, After(cfg, run.before), run.step);
        if cfg.waitEnabled && cfg.captchaEnabled {
          RunsAreSheltered(cfg, run.before);
          StepKeepsShelter(cfg, run.before, run.step, After(cfg, run).history.event.id);
        }
      }
    }
  }
}
