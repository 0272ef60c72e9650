/**
 Compensation. An operation that fails half-way undoes what it did, provided the compensating call
 itself succeeds; and a challenge is accepted at most once in any run.
 */
module Rollback {
  import opened Basics
  import opened TtlMaps
  import opened Sessions
  import opened Protocol
  import opened Runs
  import opened Moves

  /** Once the old session has been accepted for rotation. */
  predicate Rotatable(cfg: Config, w: World, id: SessionId) {
    && IsLive(w.sessions, id, w.now)
    && w.sessions[id].value.id == id
    && RotationRefused(cfg, w.sessions[id].value, w.now).None?
  }

  /**
   Exactly one of the old and the new session is present afterwards, unless the deletion of the old one
   failed and then the deletion of the new one did too. The caller learns of the new one exactly when
   it alone is present.
   */
  lemma RotationIsAtomic(cfg: Config, w: World, id: SessionId, successor: SessionId, f: Faults)
    requires Rotatable(cfg, w, id) && successor !in w.sessions && !f.enter
    ensures var (o, v) := (RotateSession(cfg, w, id, successor, f), RotateSession(cfg, w, id, successor, f).world);
      && ((IsLive(v.sessions, id, w.now) <==> !IsLive(v.sessions, successor, w.now))
            <==> !(!f.save && f.delete && f.undo))
      && (id in v.sessions ==> v.sessions[id] == w.sessions[id])
      && (o.reply == Replaced(successor) <==> IsLive(v.sessions, successor, w.now) && id !in v.sessions)
      && (forall other | other != id && other != successor ::
            (other in v.sessions <==> other in w.sessions)
            && (other in w.sessions ==> v.sessions[other] == w.sessions[other]))
  {
  }

  /** A first contact that is refused stores no session and, unless releasing fails, reserves nothing. */
  lemma FailedContactLeavesNothing(cfg: Config, w: World, id: SessionId, f: Faults)
    requires id !in w.reservations && Contact(cfg, w, id, f).reply.Fail?
    ensures var v := Contact(cfg, w, id, f).world;
      && v.sessions == w.sessions && v.challenges == w.challenges
      && ((f.save && f.undo) || id !in v.reservations)
  {
  }

  /**
   The right answer is accepted exactly when no call it needs fails; if only saving the admission fails,
   the session is as it was and the challenge, with its attempts, can be answered again.
   */
  lemma FailedAdmissionIsUndone(cfg: Config, w: World, id: SessionId, ch: ChallengeId, answer: string, f: Faults)
    requires cfg.Valid() && Answerable(w, id, ch)
    requires w.sessions[id].value.id == id && Dated(w.sessions[id])
    requires w.challenges[ch].value.id == ch && w.now < w.challenges[ch].value.expiresAt
    requires answer == w.challenges[ch].value.answer && 0 < |answer| <= cfg.captchaLength
    ensures var (o, v) := (Validate(cfg, w, id, answer, f), Validate(cfg, w, id, answer, f).world);
      && (o.reply == Done <==> !f.enter && !f.lookup && !f.delete && !f.save)
      && (o.reply == Done ==>
            && o.event == Solved(id, ch, answer, w.now)
            && Before(v, id, Admitted) && ch !in v.challenges)
      && (o.reply != Done ==>
            && v.sessions == w.sessions
            && (!f.undo ==> Answerable(v, id, ch) && v.challenges[ch].value == w.challenges[ch].value))
  {
    assert Capped(w.sessions[id].value.absoluteExpiresAt, w.now + cfg.sessionTTL) > w.now;
    ValidateCases(cfg, w, id, ch, answer, f);
  }

  /** Then answering again succeeds. */
  lemma RetryAfterUndoSucceeds(cfg: Config, w: World, id: SessionId, ch: ChallengeId, answer: string, f: Faults,
                               again: Faults)
    requires cfg.Valid() && Answerable(w, id, ch)
    requires w.sessions[id].value.id == id && Dated(w.sessions[id])
    requires w.challenges[ch].value.id == ch && w.now < w.challenges[ch].value.expiresAt
    requires answer == w.challenges[ch].value.answer && 0 < |answer| <= cfg.captchaLength
    requires Validate(cfg, w, id, answer, f).reply != Done && !f.undo && !again.Any()
    ensures Validate(cfg, Validate(cfg, w, id, answer, f).world, id, answer, again).reply == Done
  {
    FailedAdmissionIsUndone(cfg, w, id, ch, answer, f);
    FailedAdmissionIsUndone(cfg, Validate(cfg, w, id, answer, f).world, id, ch, answer, again);
  }

  /** No answer but the right one is ever accepted, in any world. */
  lemma OnlyTheAnswerIsAccepted(cfg: Config, w: World, id: SessionId, answer: string, f: Faults)
    ensures var o := Validate(cfg, w, id, answer, f);
      (o.reply == Done <==> o.event.Solved?) && (o.event.Solved? ==>
        && o.event.answer == answer
        && Before(w, id, ChallengeRequired)
        && w.sessions[id].value.challenge.Some?
        && IsLive(w.challenges, w.sessions[id].value.challenge.value, w.now)
        && w.challenges[w.sessions[id].value.challenge.value].value.answer == answer)
  {
  }

  // ---- a challenge is accepted at most once --------------------------------------------------

  function Acceptances(h: History, ch: ChallengeId): nat {
    match h
    case Start => 0
    case Then(past, event, _) => Acceptances(past, ch) + if event.Solved? && event.challenge == ch then 1 else 0
  }

  /** Spent challenges are gone for good. */
  predicate SpentOnce(s: System, ch: ChallengeId) {
    && Acceptances(s.history, ch) <= 1
    && (Acceptances(s.history, ch) == 1 ==> ch in s.challengeIds && ch !in s.world.challenges)
  }

  lemma MoveKeepsSpent(cfg: Config, s: System, t: System, ch: ChallengeId)
    requires WellFormed(cfg, s) && Move(cfg, s, t) && SpentOnce(s, ch)
    ensures SpentOnce(t, ch)
  {
    if ch in s.world.challenges {
      assert ChallengeOK(cfg, s, ch, s.world.challenges[ch]);
    }
  }

  lemma {:induction false} AcceptedAtMostOnce(cfg: Config, run: Run, ch: ChallengeId)
    requires cfg.Valid() && EngineRun(cfg, run)
    ensures SpentOnce(After(cfg, run), ch)
  {
    match run
    case Init(_) =>
    case Next(before, step) =>
      AcceptedAtMostOnce(cfg, before, ch);
      RunsAreWellFormed(cfg, before);
      if !IsClockStep(step) {
        OperationIsMove(cfg, After(cfg, before), step);
        MoveKeepsSpent(cfg, After(cfg, before), After(cfg, run), ch);
      }
  }
}
