/**
 What each operation accomplishes, in terms of the stored records: when it succeeds, what it leaves behind,
 and how it refuses. The theorems about runs bound what can go wrong; these say that things go right.
 */
module Effects {
  import opened Basics
  import opened TtlMaps
  import opened Sessions
  import opened Protocol
  import opened Runs
  import opened Moves
  import Legality
  import Quota
  import WaitRoom

  /** Only the session `id` may differ. */
  ghost predicate OnlySession(w: World, v: World, id: SessionId) {
    && v.now == w.now && v.challenges == w.challenges
    && forall other | other != id ::
         (other in v.sessions <==> other in w.sessions)
         && (other in w.sessions ==> v.sessions[other] == w.sessions[other])
  }

  /** `id` is reserved until `expiresAt`, and what is reserved for others was reserved before. */
  ghost predicate Booked(w: World, v: World, id: SessionId, expiresAt: Time) {
    && id in v.reservations && v.reservations[id] == expiresAt
    && forall other | other in v.reservations && other != id ::
         other in w.reservations && v.reservations[other] == w.reservations[other]
  }

  // ---- rotation ----------------------------------------------------------------------------------

  /** The lifetime of a session created or renewed at `now` does not reach its absolute deadline at once. */
  predicate HasLife(s: Session, now: Time) {
    s.absoluteExpiresAt.Some? ==> now < s.absoluteExpiresAt.value
  }

  predicate Outdated(s: Session, now: Time) {
    s.state == Expired || (s.expiresAt.Some? && s.expiresAt.value <= now)
  }

  predicate Renewable(s: Session) {
    s.maxRenewals <= 0 || s.renewalCount < s.maxRenewals
  }

  /** Which refusal, if any, a stored session meets; the first that applies. */
  predicate MayRotate(s: Session, now: Time) {
    s.state in {Admitted, Rotating} && !Outdated(s, now) && Renewable(s) && HasLife(s, now)
  }

  /**
   A rotation succeeds exactly if the session may be rotated and no call it needs fails. Then the old
   session is gone, and its successor is admitted for a session lifetime within the absolute deadline.
   */
  lemma RotationIs(cfg: Config, w: World, id: SessionId, successor: SessionId, f: Faults)
    requires cfg.Valid() && IsLive(w.sessions, id, w.now) && w.sessions[id].value.id == id && successor != id
    ensures var (s, o) := (w.sessions[id].value, RotateSession(cfg, w, id, successor, f));
      && (o.reply == Replaced(successor) <==> MayRotate(s, w.now) && !f.enter && !f.save && !f.delete)
      && (o.reply.Replaced? ==> o.reply.successor == successor)
      && (o.reply.Replaced? || o.reply.Fail?)
  {
  }

  lemma RotatedIs(cfg: Config, w: World, id: SessionId, successor: SessionId, f: Faults)
    requires cfg.Valid() && IsLive(w.sessions, id, w.now) && w.sessions[id].value.id == id && successor != id
    requires RotateSession(cfg, w, id, successor, f).reply == Replaced(successor)
    ensures var (s, v) := (w.sessions[id].value, RotateSession(cfg, w, id, successor, f).world);
      var deadline := Capped(s.absoluteExpiresAt, w.now + cfg.sessionTTL);
      && w.now < deadline <= w.now + cfg.sessionTTL
      && id !in v.sessions && successor in v.sessions && v.challenges == w.challenges
      && v.sessions[successor] == Entry(
           s.(id := successor, state := Admitted, expiresAt := Some(deadline), renewalCount := s.renewalCount + 1,
              lastSeenAt := w.now, challenge := None), deadline)
  {
  }

  /** The reservation goes with it. */
  lemma RotatedIsReserved(cfg: Config, w: World, id: SessionId, successor: SessionId, f: Faults)
    requires cfg.Valid() && IsLive(w.sessions, id, w.now) && w.sessions[id].value.id == id && successor != id
    requires RotateSession(cfg, w, id, successor, f).reply == Replaced(successor)
    ensures var (s, v) := (w.sessions[id].value, RotateSession(cfg, w, id, successor, f).world);
      if f.capacity || id !in w.reservations then v.reservations == w.reservations
      else
        && id !in v.reservations
        && Booked(w, v, successor, Capped(s.absoluteExpiresAt, w.now + cfg.sessionTTL))
        && forall other | other in w.reservations && other != id :: other in v.reservations
  {
  }

  /** Who is refused, and why. */
  lemma RotationRefusals(cfg: Config, w: World, id: SessionId, successor: SessionId, f: Faults)
    requires cfg.Valid() && !f.enter && (id in w.sessions ==> w.sessions[id].value.id == id)
    ensures var o := RotateSession(cfg, w, id, successor, f);
      if !IsLive(w.sessions, id, w.now) then o.reply == Fail(InvalidSession) && o.world == w
      else
        var (s, now) := (w.sessions[id].value, w.now);
        && (o.reply == Fail(SessionRevoked) <==> s.state == Revoked)
        && (o.reply == Fail(InvalidTransition) <==>
              !Outdated(s, now) && s.state in {New, Waiting, ChallengeRequired})
        && (o.reply == Fail(RenewalLimitReached) <==>
              s.state in {Admitted, Rotating} && !Outdated(s, now) && !Renewable(s))
        && (o.reply == Fail(SessionExpired) <==>
              s.state != Revoked
              && (Outdated(s, now) || (s.state in {Admitted, Rotating} && Renewable(s) && !HasLife(s, now))))
        && (!MayRotate(s, now) ==> o.world == w)
  {
  }

  // ---- revocation --------------------------------------------------------------------------------

  /**
   A revocation succeeds exactly if the session is live and not yet revoked and no call it needs fails. Then
   it is stored as REVOKED, without a deadline of its own, for five minutes, and its place is free.
   */
  lemma RevocationIs(w: World, id: SessionId, f: Faults)
    requires id in w.sessions ==> w.sessions[id].value.id == id
    ensures var (o, live) := (RevokeSession(w, id, f), IsLive(w.sessions, id, w.now));
      && (o.reply == Done <==> live && w.sessions[id].value.state != Revoked && !f.enter && !f.save)
      && (!f.enter && !live ==> o.reply == Fail(InvalidSession))
      && (!f.enter && live && w.sessions[id].value.state == Revoked ==> o.reply == Fail(SessionRevoked))
      && (o.reply == Done ==>
            && OnlySession(w, o.world, id) && id in o.world.sessions
            && o.world.sessions[id] == Entry(
                 w.sessions[id].value.(state := Revoked, expiresAt := None, lastSeenAt := w.now), w.now + 5 * MINUTE)
            && o.event == Withdrawn(id, w.now))
      && (o.reply != Done ==> o.world == w)
  {
  }

  lemma RevocationFreesThePlace(w: World, id: SessionId, f: Faults)
    requires (id in w.sessions ==> w.sessions[id].value.id == id) && RevokeSession(w, id, f).reply == Done
    ensures var v := RevokeSession(w, id, f).world;
      if f.capacity then v.reservations == w.reservations
      else
        && id !in v.reservations
        && forall other | other != id ::
             (other in v.reservations <==> other in w.reservations)
             && (other in w.reservations ==> v.reservations[other] == w.reservations[other])
  {
  }

  /** Requests for `id` that were let through. */
  function Services(h: History, id: SessionId): nat {
    match h
    case Start => 0
    case Then(past, event, _) =>
      Services(past, id) + if LetsThrough(event) && event.id == id then 1 else 0
  }

  predicate LetsThrough(event: Event) {
    event.Served? || event.AdmittedAfterWait? || (event.Contacted? && event.state == Admitted)
  }

  /** A session that is stored as REVOKED, or gone, is not served by a step. */
  lemma RevokedIsNotServed(cfg: Config, s: System, step: Step, id: SessionId)
    requires Legality.Keyed(s) && Fresh(s, step) && Legality.Confined(s, id, {Revoked})
    ensures Services(Apply(cfg, s, step).history, id) == Services(s.history, id)
  {
    if step.RotateOne? {
      Legality.RotationNeedsAdmission(cfg, s.world, step.id, step.successor, step.f);
    } else if step.FirstContact? {
      assert step.id != id;
    } else if step.Request? {
      EvaluateServesOwn(cfg, s.world, step.id, step.f);
    } else if !step.Tick? && !step.Sweep? {
      OthersServeNobody(cfg, s, step);
    }
  }

  lemma EvaluateServesOwn(cfg: Config, w: World, id: SessionId, f: Faults)
    ensures var event := Evaluate(cfg, w, id, f).event;
      event.id == id && (!IsLive(w.sessions, id, w.now) || w.sessions[id].value.state == Revoked ==> event.Quiet?)
  {
  }

  lemma OthersServeNobody(cfg: Config, s: System, step: Step)
    requires step.IssueChallenge? || step.ValidateChallenge? || step.RevokeOne? || step.TransitionOne?
    ensures var event := Apply(cfg, s, step).history.event;
      !event.Served? && !event.AdmittedAfterWait? && !event.Contacted?
  {
  }

  /** Once revoked, a session is never served again, nor rotated, in any continuation of the run. */
  lemma {:induction false} RevokedIsOver(cfg: Config, run: Run, earlier: Run, id: SessionId, f: Faults)
    requires Possible(cfg, run) && Possible(cfg, earlier) && Legality.Continues(run, Next(earlier, RevokeOne(id, f)))
    requires RevokeSession(After(cfg, earlier).world, id, f).reply == Done
    ensures Legality.Confined(After(cfg, run), id, {Revoked})
    ensures Services(After(cfg, run).history, id) == Services(After(cfg, earlier).history, id)
    ensures Legality.Rotations(After(cfg, run).history, id) == Legality.Rotations(After(cfg, earlier).history, id)
  {
    var revoked := Next(earlier, RevokeOne(id, f));
    Legality.PossibleRunsAreKeyed(cfg, earlier);
    RevocationIs(After(cfg, earlier).world, id, f);
    Legality.StaysConfined(cfg, run, revoked, id, {Revoked});
    if run != revoked {
      RevokedIsOver(cfg, run.before, earlier, id, f);
      Legality.PossibleRunsAreKeyed(cfg, run.before);
      RevokedIsNotServed(cfg, After(cfg, run.before), run.step, id);
    }
  }

  // ---- answers -----------------------------------------------------------------------------------

  /** Who may not answer at all, and what they are told; nothing changes. */
  lemma AnswerRefusals(cfg: Config, w: World, id: SessionId, answer: string, f: Faults)
    requires !f.enter && !f.lookup
    ensures var o := Validate(cfg, w, id, answer, f);
      if answer == "" || |answer| > cfg.captchaLength then o.reply == Fail(WrongAnswer) && o.world == w
      else if !IsLive(w.sessions, id, w.now) then o.reply == Fail(InvalidSession) && o.world == w
      else
        var s := w.sessions[id].value;
        if s.state != ChallengeRequired then o.reply == Fail(InvalidTransition) && o.world == w
        else if s.challenge.None? || !IsLive(w.challenges, s.challenge.value, w.now) then
          o.reply == Fail(ChallengeNotFound) && o.world == w
        else true
  {
  }

  /** The session faces the challenge `ch`, and an answer of legal length would be compared. */
  predicate Comparable(cfg: Config, w: World, id: SessionId, ch: ChallengeId, answer: string) {
    && Answerable(w, id, ch) && w.sessions[id].value.id == id && w.challenges[ch].value.id == ch
    && w.now < w.challenges[ch].value.expiresAt
    && 0 < |answer| <= cfg.captchaLength
  }

  /** Only the challenge `ch` may differ. */
  ghost predicate OnlyChallenge(w: World, v: World, ch: ChallengeId) {
    forall other | other != ch ::
      (other in v.challenges <==> other in w.challenges)
      && (other in w.challenges ==> v.challenges[other] == w.challenges[other])
  }

  /** A wrong answer that is not the last is counted, with or without a wait room, unless writing fails. */
  lemma WrongAnswerIsCounted(cfg: Config, w: World, id: SessionId, ch: ChallengeId, answer: string, f: Faults)
    requires Comparable(cfg, w, id, ch, answer) && answer != w.challenges[ch].value.answer && !f.enter && !f.lookup
    requires w.challenges[ch].value.attempts + 1 < w.challenges[ch].value.maxAttempts
    ensures var (o, c) := (Validate(cfg, w, id, answer, f), w.challenges[ch].value);
      && o.world.sessions == w.sessions && o.world.reservations == w.reservations
      && if f.put then
           o.reply == Fail(StoreFailure) && o.event == Guessed(id, ch, w.now, Uncounted) && o.world == w
         else
           && o.reply == Fail(WrongAnswer) && o.event == Guessed(id, ch, w.now, Counted)
           && OnlyChallenge(w, o.world, ch) && ch in o.world.challenges
           && o.world.challenges[ch] == Entry(c.(attempts := c.attempts + 1), c.expiresAt)
  {
  }

  /** The last one removes the challenge, and sends the session back to the wait room if there is one. */
  lemma LastWrongAnswerIs(cfg: Config, w: World, id: SessionId, ch: ChallengeId, answer: string, f: Faults)
    requires cfg.Valid() && Comparable(cfg, w, id, ch, answer) && answer != w.challenges[ch].value.answer
    requires w.challenges[ch].value.attempts + 1 >= w.challenges[ch].value.maxAttempts && !f.enter && !f.lookup
    requires HasLife(w.sessions[id].value, w.now)
    ensures var (o, s) := (Validate(cfg, w, id, answer, f), w.sessions[id].value);
      && o.reply == Fail(if f.save then StoreFailure else MaxAttemptsExceeded)
      && o.world.reservations == w.reservations
      && OnlyChallenge(w, o.world, ch) && (ch in o.world.challenges <==> f.delete)
      && (f.delete ==> o.world.challenges[ch] == w.challenges[ch])
      && (f.save ==> o.world.sessions == w.sessions)
  {
  }

  lemma ExpelledIs(cfg: Config, w: World, id: SessionId, ch: ChallengeId, answer: string, f: Faults)
    requires cfg.Valid() && Comparable(cfg, w, id, ch, answer) && HasLife(w.sessions[id].value, w.now)
    requires Validate(cfg, w, id, answer, f).reply == Fail(MaxAttemptsExceeded)
    ensures var (s, v) := (w.sessions[id].value, Validate(cfg, w, id, answer, f).world);
      && id in v.sessions
      && (forall other | other != id ::
            (other in v.sessions <==> other in w.sessions)
            && (other in w.sessions ==> v.sessions[other] == w.sessions[other]))
      && if !cfg.waitEnabled then
           && v.sessions[id].value == s.(challenge := None)
           && (s.expiresAt.Some? && w.now < s.expiresAt.value ==> v.sessions[id].expiresAt == s.expiresAt.value)
         else
           var deadline := Capped(s.absoluteExpiresAt, w.now + cfg.waitTime + 10 * MINUTE);
           v.sessions[id] == Entry(
             s.(challenge := None, state := Waiting, firstSeen := w.now, expiresAt := Some(deadline)), deadline)
  {
  }

  /** The right one admits the session for a session lifetime within its absolute deadline, or changes no session. */
  lemma RightAnswerIs(cfg: Config, w: World, id: SessionId, ch: ChallengeId, answer: string, f: Faults)
    requires cfg.Valid() && Comparable(cfg, w, id, ch, answer) && answer == w.challenges[ch].value.answer
    requires HasLife(w.sessions[id].value, w.now) && !f.enter && !f.lookup
    ensures var (o, s) := (Validate(cfg, w, id, answer, f), w.sessions[id].value);
      var deadline := Capped(s.absoluteExpiresAt, w.now + cfg.sessionTTL);
      if f.delete || f.save then
        o.reply == Fail(StoreFailure) && o.world.sessions == w.sessions && o.world.reservations == w.reservations
      else
        && o.reply == Done && OnlyChallenge(w, o.world, ch) && ch !in o.world.challenges
        && id in o.world.sessions && w.now < deadline
        && o.world.sessions[id] == Entry(
             s.(challenge := None, state := Admitted, lastSeenAt := w.now, expiresAt := Some(deadline)), deadline)
        && (id in w.reservations && !f.capacity ==> Booked(w, o.world, id, deadline))
  {
  }

  /** A challenge that cannot be read, or has expired of itself, is not compared. */
  lemma NotCompared(cfg: Config, w: World, id: SessionId, ch: ChallengeId, answer: string, f: Faults)
    requires Answerable(w, id, ch) && w.challenges[ch].value.id == ch && 0 < |answer| <= cfg.captchaLength && !f.enter
    requires f.lookup || w.challenges[ch].value.expiresAt <= w.now
    ensures var o := Validate(cfg, w, id, answer, f);
      && o.reply == Fail(if f.lookup then StoreFailure else ChallengeExpired)
      && o.world.sessions == w.sessions && o.world.reservations == w.reservations
      && OnlyChallenge(w, o.world, ch) && (ch in o.world.challenges <==> f.lookup || f.delete)
      && (ch in o.world.challenges ==> o.world.challenges[ch] == w.challenges[ch])
  {
  }

  /** Past its absolute deadline a session is not admitted by an answer. */
  lemma NoAdmissionPastDeadline(cfg: Config, w: World, id: SessionId, ch: ChallengeId, answer: string, f: Faults)
    requires Comparable(cfg, w, id, ch, answer) && answer == w.challenges[ch].value.answer
    requires !HasLife(w.sessions[id].value, w.now) && !f.enter && !f.lookup && !f.delete
    ensures var o := Validate(cfg, w, id, answer, f);
      o.reply == Fail(SessionExpired) && o.world.sessions == w.sessions && o.world.reservations == w.reservations
  {
  }

  // ---- challenges --------------------------------------------------------------------------------

  /** A challenge that can still be presented is shown again, and nothing changes. */
  lemma AnswerableIsShownAgain(cfg: Config, w: World, id: SessionId, draft: ChallengeId, answer: string, f: Faults,
                               ch: ChallengeId)
    requires Answerable(w, id, ch) && w.now < w.challenges[ch].value.expiresAt && !Outdated(w.sessions[id].value, w.now)
    requires !f.enter && !f.lookup
    ensures var o := Issue(cfg, w, id, draft, answer, f); o.reply == Present(ch) && o.world == w
  {
  }

  /** No such challenge can be read. */
  predicate NeedsChallenge(w: World, id: SessionId, f: Faults) {
    && Before(w, id, ChallengeRequired) && !f.enter
    && var s := w.sessions[id].value;
    && s.id == id && s.expiresAt.Some? && !Outdated(s, w.now)
    && (s.challenge.Some? && !f.lookup ==> !IsLive(w.challenges, s.challenge.value, w.now))
  }

  /** Then a new one is made, with all attempts, and neither it nor the session outlives the other. */
  lemma NewChallengeIs(cfg: Config, w: World, id: SessionId, draft: ChallengeId, answer: string, f: Faults)
    requires cfg.Valid() && cfg.captchaTTL > 0 && NeedsChallenge(w, id, f) && !f.render && !f.put && !f.save
    ensures var (o, s) := (Issue(cfg, w, id, draft, answer, f), w.sessions[id].value);
      var end := w.now + cfg.captchaTTL;
      var dies := if s.expiresAt.value < end then s.expiresAt.value else end;
      && o.reply == Present(draft) && o.world.reservations == w.reservations && o.world.now == w.now
      && o.world.challenges
           == w.challenges[draft := Entry(Challenge(draft, id, answer, w.now, end, 0, cfg.maxAttempts), dies)]
      && o.world.sessions == w.sessions[id := Entry(s.(challenge := Some(draft)), dies)]
  {
  }

  /** If that fails half-way the session is as it was, and no new challenge is left unless removing it fails too. */
  lemma FailedIssueIsUndone(cfg: Config, w: World, id: SessionId, draft: ChallengeId, answer: string, f: Faults)
    requires cfg.Valid() && cfg.captchaTTL > 0 && NeedsChallenge(w, id, f) && (f.render || f.put || f.save)
    requires draft !in w.challenges
    ensures var o := Issue(cfg, w, id, draft, answer, f);
      && o.reply == Fail(StoreFailure) && o.world.sessions == w.sessions && o.world.reservations == w.reservations
      && OnlyChallenge(w, o.world, draft)
      && (draft in o.world.challenges <==> !f.render && !f.put && f.undo)
  {
  }

  /** Who gets none, and why; nothing changes. */
  lemma IssueRefusals(cfg: Config, w: World, id: SessionId, draft: ChallengeId, answer: string, f: Faults)
    requires !f.enter
    ensures var o := Issue(cfg, w, id, draft, answer, f);
      if !IsLive(w.sessions, id, w.now) then o.reply == Fail(InvalidSession) && o.world == w
      else if w.sessions[id].value.state != ChallengeRequired then o.reply == Fail(InvalidTransition) && o.world == w
      else if Outdated(w.sessions[id].value, w.now) then o.reply == Fail(SessionExpired) && o.world == w
      else true
  {
  }

  // ---- requests ----------------------------------------------------------------------------------

  /** What a request is told when nothing is to be done for it. */
  lemma EvaluateIs(cfg: Config, w: World, id: SessionId, f: Faults)
    requires !f.snapshot
    ensures var o := Evaluate(cfg, w, id, f);
      if !IsLive(w.sessions, id, w.now) then o.reply == Fail(InvalidSession) && o.world == w
      else
        var s := w.sessions[id].value;
        if s.state == Revoked then o.reply == Hold(Revoked, 0) && o.world == w
        else if Outdated(s, w.now) then o.reply == Hold(Expired, 0) && o.world == w
        else if s.state == Admitted then o.reply == Allow && o.world == w
        else if s.state in {ChallengeRequired, Rotating} then o.reply == Hold(s.state, 0) && o.world == w
        else true
  {
  }

  /** Who has not waited long enough is told when to come back: late enough, and less than a second too late. */
  lemma WaitingIsHeld(cfg: Config, w: World, id: SessionId, f: Faults, later: Time)
    requires !f.snapshot && Before(w, id, Waiting) && !Outdated(w.sessions[id].value, w.now)
    requires var s := w.sessions[id].value;
      s.firstSeen <= w.now && !WaitRoom.WaitSatisfied(s.firstSeen, w.now, cfg.waitTime)
    ensures var (o, s) := (Evaluate(cfg, w, id, f), w.sessions[id].value);
      && o.world == w && o.reply.Hold? && o.reply.state == Waiting
      && o.reply.retryAfter >= SECOND && o.reply.retryAfter % SECOND == 0
      && (later >= w.now + o.reply.retryAfter ==> WaitRoom.WaitSatisfied(s.firstSeen, later, cfg.waitTime))
      && (s.firstSeen <= later <= w.now + o.reply.retryAfter - SECOND ==>
            !WaitRoom.WaitSatisfied(s.firstSeen, later, cfg.waitTime))
  {
    WaitRoom.RetryAfterSoundAndTight(w.sessions[id].value.firstSeen, w.now, cfg.waitTime, later);
  }

  /** Who has is let on, to the challenge or straight in, unless locking or saving fails. */
  lemma WaitEnds(cfg: Config, w: World, id: SessionId, f: Faults)
    requires cfg.Valid() && !f.snapshot && Before(w, id, Waiting) && !Outdated(w.sessions[id].value, w.now)
    requires var s := w.sessions[id].value;
      && s.id == id && HasLife(s, w.now) && s.firstSeen <= w.now
      && WaitRoom.WaitSatisfied(s.firstSeen, w.now, cfg.waitTime)
    ensures var (o, s) := (Evaluate(cfg, w, id, f), w.sessions[id].value);
      var (next, ttl) := if cfg.captchaEnabled then (ChallengeRequired, cfg.captchaTTL + 5 * MINUTE)
                         else (Admitted, cfg.sessionTTL);
      var deadline := Capped(s.absoluteExpiresAt, w.now + ttl);
      if f.enter || f.save then o.reply == Fail(StoreFailure) && o.world == w
      else
        && o.reply == (if cfg.captchaEnabled then Hold(ChallengeRequired, 0) else Allow)
        && OnlySession(w, o.world, id) && id in o.world.sessions && w.now < deadline
        && o.world.sessions[id] == Entry(s.(state := next, lastSeenAt := w.now, expiresAt := Some(deadline)), deadline)
        && (id in w.reservations && !f.capacity ==> Booked(w, o.world, id, deadline))
  {
  }

  /** Past its absolute deadline a session does not leave the wait room. */
  lemma NoLeavePastDeadline(cfg: Config, w: World, id: SessionId, f: Faults)
    requires !f.snapshot && !f.enter && Before(w, id, Waiting) && !Outdated(w.sessions[id].value, w.now)
    requires var s := w.sessions[id].value;
      && !HasLife(s, w.now) && s.firstSeen <= w.now && WaitRoom.WaitSatisfied(s.firstSeen, w.now, cfg.waitTime)
    ensures var o := Evaluate(cfg, w, id, f); o.reply == Hold(Expired, 0) && o.world == w
  {
  }

  /** Whoever cannot even begin is told so, and nothing changes. */
  lemma NothingBegun(cfg: Config, w: World, id: SessionId, other: SessionId, draft: ChallengeId, answer: string,
                     on: Trigger, target: State, f: Faults)
    requires f.enter
    ensures var o := Evaluate(cfg, w, id, f.(snapshot := true)); o.reply == Fail(StoreFailure) && o.world == w
    ensures PassWait(cfg, w, id, f).reply == Fail(StoreFailure) && PassWait(cfg, w, id, f).world == w
    ensures var o := Issue(cfg, w, id, draft, answer, f); o.reply == Fail(StoreFailure) && o.world == w
    ensures var o := Validate(cfg, w, id, answer, f);
      o.world == w && o.reply == Fail(if 0 < |answer| <= cfg.captchaLength then StoreFailure else WrongAnswer)
    ensures RevokeSession(w, id, f).reply == Fail(StoreFailure) && RevokeSession(w, id, f).world == w
    ensures var o := RotateSession(cfg, w, id, other, f); o.reply == Fail(StoreFailure) && o.world == w
    ensures var o := Transition(cfg, w, id, on, target, f); o.reply == Fail(StoreFailure) && o.world == w
  {
  }

  // ---- newcomers ---------------------------------------------------------------------------------

  /** What the first record of a session says, and until when it lives. */
  predicate FirstRecord(cfg: Config, now: Time, id: SessionId, e: Entry<Session>) {
    var absolute := if cfg.absoluteLifetime > 0 then Some(now + cfg.absoluteLifetime) else None;
    var (state, ttl) :=
      if cfg.waitEnabled then (Waiting, cfg.waitTime + 10 * MINUTE)
      else if cfg.captchaEnabled then (ChallengeRequired, cfg.captchaTTL + 5 * MINUTE)
      else (Admitted, cfg.sessionTTL);
    var life := if cfg.absoluteLifetime > 0 && cfg.absoluteLifetime < ttl then cfg.absoluteLifetime else ttl;
    var deadline := now + life;
    && now < deadline && e.expiresAt == deadline
    && e.value == Session(id, state, now, Some(deadline), absolute, 0, cfg.maxRenewals, now, now, None)
  }

  /** A newcomer gets in exactly if fewer than `maxSessions` reservations are live and no call fails. */
  lemma NewcomerIs(cfg: Config, w: World, id: SessionId, f: Faults)
    requires cfg.Valid() && id !in w.reservations
    ensures var (o, room) := (Contact(cfg, w, id, f), |Quota.LiveOnly(w.reservations, w.now)| < cfg.maxSessions);
      && (o.event.Contacted? <==> room && !f.capacity && !f.save)
      && (!f.capacity && !room ==> o.reply == Fail(CapacityExceeded))
      && (f.capacity || (room && f.save) ==> o.reply == Fail(StoreFailure))
      && (o.event.Contacted? ==>
            && OnlySession(w, o.world, id) && id in o.world.sessions
            && FirstRecord(cfg, w.now, id, o.world.sessions[id])
            && Booked(w, o.world, id, o.world.sessions[id].expiresAt)
            && o.reply == (if cfg.waitEnabled then Hold(Waiting, cfg.waitTime)
                           else if cfg.captchaEnabled then Hold(ChallengeRequired, 0) else Allow))
      && (!o.event.Contacted? ==> o.world.sessions == w.sessions && o.world.challenges == w.challenges)
  {
    Quota.LiveOnlyShrinks(w.reservations, w.now);
  }

  /** Renewing does what a newcomer's reservation does, or changes the deadline of the one there is. */
  lemma RenewalIs(cfg: Config, w: World, id: SessionId, expiresAt: Time)
    requires cfg.Valid()
    ensures var v := Renew(cfg, w, id, expiresAt, false);
      var room := |Quota.LiveOnly(w.reservations, w.now)| < cfg.maxSessions;
      && v.sessions == w.sessions && v.challenges == w.challenges
      && (id in w.reservations || room ==> Booked(w, v, id, expiresAt))
      && (id !in w.reservations && !room ==> id !in v.reservations)
      && forall other | other in w.reservations && other != id && w.now < w.reservations[other] ::
           other in v.reservations && v.reservations[other] == w.reservations[other]
  {
    Quota.LiveOnlyShrinks(w.reservations, w.now);
  }

  // ---- the exported transition -------------------------------------------------------------------

  /** It refuses what the table does not list, and what has no life left. */
  lemma TransitionRefusals(cfg: Config, w: World, id: SessionId, on: Trigger, target: State, f: Faults)
    requires cfg.Valid() && !f.enter && (id in w.sessions ==> w.sessions[id].value.id == id)
    ensures var o := Transition(cfg, w, id, on, target, f);
      if !IsLive(w.sessions, id, w.now) then o.reply == Fail(InvalidSession) && o.world == w
      else
        var s := w.sessions[id].value;
        if s.state == target then o.reply == Done && o.world == w
        else if !IsLegalTransition(s.state, on, target) then o.reply == Fail(InvalidTransition) && o.world == w
        else if target == Admitted && !HasLife(s, w.now) then o.reply == Fail(SessionExpired) && o.world == w
        else if f.save then o.reply == Fail(StoreFailure) && o.world == w
        else o.reply == Done
  {
  }

  lemma TransitionIs(cfg: Config, w: World, id: SessionId, on: Trigger, target: State, f: Faults)
    requires cfg.Valid() && IsLive(w.sessions, id, w.now) && w.sessions[id].value.id == id
    requires w.sessions[id].value.state != target && Transition(cfg, w, id, on, target, f).reply == Done
    ensures var (s, v) := (w.sessions[id].value, Transition(cfg, w, id, on, target, f).world);
      && OnlySession(w, v, id) && id in v.sessions
      && v.sessions[id] == TransitionRecord(cfg, s, target, w.now)
  {
  }

  /** Its place is freed by an end and renewed by an admission; other states leave it alone. */
  lemma TransitionBooks(cfg: Config, w: World, id: SessionId, on: Trigger, target: State, f: Faults)
    requires cfg.Valid() && IsLive(w.sessions, id, w.now) && w.sessions[id].value.id == id && id in w.reservations
    requires w.sessions[id].value.state != target && Transition(cfg, w, id, on, target, f).reply == Done
    ensures var v := Transition(cfg, w, id, on, target, f).world;
      if f.capacity then v.reservations == w.reservations
      else match target
        case Revoked => v.reservations == w.reservations - {id}
        case Expired => v.reservations == w.reservations - {id}
        case Admitted => Booked(w, v, id, Capped(w.sessions[id].value.absoluteExpiresAt, w.now + cfg.sessionTTL))
        case _ => v.reservations == w.reservations
  {
  }

  /** The record a transition leaves: terminal ones are kept for a while, others for a session lifetime. */
  function TransitionRecord(cfg: Config, s: Session, target: State, now: Time): Entry<Session> {
    var moved := s.(state := target, lastSeenAt := now);
    match target
    case Revoked => Entry(moved.(expiresAt := None), now + 5 * MINUTE)
    case Expired => Entry(moved.(expiresAt := Some(now)), now + MINUTE)
    case Admitted =>
      var deadline := Capped(s.absoluteExpiresAt, now + cfg.sessionTTL);
      Entry(moved.(expiresAt := Some(deadline)), deadline)
    case _ => Entry(moved, now + cfg.sessionTTL)
  }

  // ---- the janitor -------------------------------------------------------------------------------

  /** A sweep removes exactly what has expired. */
  lemma SweepIs(cfg: Config, s: System)
    ensures var (w, v) := (s.world, Apply(cfg, s, Sweep).world);
      && (forall id :: id in v.sessions <==> IsLive(w.sessions, id, w.now))
      && (forall ch :: ch in v.challenges <==> IsLive(w.challenges, ch, w.now))
      && (forall id :: id in v.reservations <==> id in w.reservations && w.now < w.reservations[id])
      && (forall id | id in v.sessions :: v.sessions[id] == w.sessions[id])
      && (forall ch | ch in v.challenges :: v.challenges[ch] == w.challenges[ch])
      && (forall id | id in v.reservations :: v.reservations[id] == w.reservations[id])
  {
  }
}
