/**
 Proof of patience. With a wait room and a challenge in force, the history of any run shows, for every
 session it has ever stored as ADMITTED, a session it descends from by rotations that (1) entered the
 wait room, (2) passed a check at least `waitTime` later, (3) was issued a challenge and (4) gave the
 answer that challenge was issued with, without being sent back to the wait room in between.
 */
module Patience {
  import opened Basics
  import opened TtlMaps
  import opened Sessions
  import opened Protocol
  import opened Runs
  import opened Moves

  predicate EntersWait(event: Event, id: SessionId) {
    (event.Contacted? || event.Expelled?) && event.id == id
  }

  /** When `id` last entered the wait room: first contact, or expulsion. */
  function WaitingSince(h: History, id: SessionId): Option<Time> {
    match h
    case Start => None
    case Then(past, event, _) => if EntersWait(event, id) then Some(event.at) else WaitingSince(past, id)
  }

  /** Since it last entered the wait room, `id` passed a wait check, and late enough. */
  predicate HasWaited(cfg: Config, h: History, id: SessionId) {
    match h
    case Start => false
    case Then(past, event, _) =>
      if EntersWait(event, id) then false
      else if event.WaitPassed? && event.id == id then
        WaitingSince(past, id).Some? && event.at >= WaitingSince(past, id).value + cfg.waitTime
      else HasWaited(cfg, past, id)
  }

  /** After that, it was issued `ch`, whose right answer is `answer`. */
  predicate HasChallenge(cfg: Config, h: History, id: SessionId, ch: ChallengeId, answer: string) {
    match h
    case Start => false
    case Then(past, event, _) =>
      if EntersWait(event, id) then false
      else if event.Issued? && event.id == id && event.challenge == ch then
        event.answer == answer && HasWaited(cfg, past, id)
      else HasChallenge(cfg, past, id, ch, answer)
  }

  /** It then solved it; or it was rotated from a session that had. */
  predicate Earned(cfg: Config, h: History, id: SessionId) {
    match h
    case Start => false
    case Then(past, event, _) =>
      || Earned(cfg, past, id)
      || (event.Solved? && event.id == id && HasChallenge(cfg, past, id, event.challenge, event.answer))
      || (event.Rotated? && event.successor == id && Earned(cfg, past, event.id))
  }

  predicate PatienceOK(cfg: Config, s: System, id: SessionId, e: Entry<Session>) {
    match e.value.state
    case Waiting => WaitingSince(s.history, id) == Some(e.value.firstSeen)
    case ChallengeRequired =>
      && HasWaited(cfg, s.history, id)
      && (e.value.challenge.Some? && e.value.challenge.value in s.world.challenges ==>
            HasChallenge(cfg, s.history, id, e.value.challenge.value,
                         s.world.challenges[e.value.challenge.value].value.answer))
    case Admitted => Earned(cfg, s.history, id)
    case _ => true
  }

  ghost predicate AllPatient(cfg: Config, s: System) {
    forall id | id in s.world.sessions :: PatienceOK(cfg, s, id, s.world.sessions[id])
  }

  lemma OthersStayPatient(cfg: Config, s: System, t: System, id: SessionId)
    requires WellFormed(cfg, s) && Move(cfg, s, t) && id in s.world.sessions
    requires !Writes(t.history.event, id)
    requires PatienceOK(cfg, s, id, s.world.sessions[id])
    ensures id in t.world.sessions && PatienceOK(cfg, t, id, t.world.sessions[id])
  {
    MovesLeaveOthers(cfg, s, t, id);
    assert SessionOK(cfg, s, id, s.world.sessions[id]);
    var other := t.history.event.id;
    if other in s.world.sessions {
      assert SessionOK(cfg, s, other, s.world.sessions[other]);
    }
  }

  lemma WrittenStaysPatient(cfg: Config, s: System, t: System, id: SessionId)
    requires cfg.Valid() && cfg.waitEnabled && cfg.captchaEnabled
    requires WellFormed(cfg, s) && Move(cfg, s, t) && AllPatient(cfg, s)
    requires Writes(t.history.event, id) && id in t.world.sessions
    ensures PatienceOK(cfg, t, id, t.world.sessions[id])
  {
    var subject := t.history.event.id;
    if subject in s.world.sessions {
      assert SessionOK(cfg, s, subject, s.world.sessions[subject]);
      assert PatienceOK(cfg, s, subject, s.world.sessions[subject]);
    }
  }

  lemma {:induction false} RunsArePatient(cfg: Config, run: Run)
    requires cfg.Valid() && cfg.waitEnabled && cfg.captchaEnabled && EngineRun(cfg, run)
    ensures AllPatient(cfg, After(cfg, run))
  {
    match run
    case Init(_) =>
    case Next(before, step) =>
      RunsArePatient(cfg, before);
      RunsAreWellFormed(cfg, before);
      var (s, t) := (After(cfg, before), After(cfg, run));
      if !IsClockStep(step) {
        OperationIsMove(cfg, s, step);
        forall id | id in t.world.sessions ensures PatienceOK(cfg, t, id, t.world.sessions[id]) {
          if Writes(t.history.event, id) {
            WrittenStaysPatient(cfg, s, t, id);
          } else {
            MovesLeaveOthers(cfg, s, t, id);
            OthersStayPatient(cfg, s, t, id);
          }
        }
      }
  }

  /** Nobody is admitted who has not waited and then solved a challenge of their own. */
  lemma AdmissionIsEarned(cfg: Config, run: Run, id: SessionId)
    requires cfg.Valid() && cfg.waitEnabled && cfg.captchaEnabled && EngineRun(cfg, run)
    requires var w := After(cfg, run).world;
      id in w.sessions && w.sessions[id].value.state == Admitted
    ensures Earned(cfg, After(cfg, run).history, id)
  {
    RunsArePatient(cfg, run);
  }

  /** Nor is a request ever served for a session that has not. */
  lemma {:induction false} ServiceIsEarned(cfg: Config, run: Run)
    requires cfg.Valid() && cfg.waitEnabled && cfg.captchaEnabled && EngineRun(cfg, run)
    ensures AllServedEarned(cfg, After(cfg, run).history)
  {
    match run
    case Init(_) =>
    case Next(before, step) =>
      ServiceIsEarned(cfg, before);
      RunsArePatient(cfg, before);
      RunsAreWellFormed(cfg, before);
      if !IsClockStep(step) {
        OperationIsMove(cfg, After(cfg, before), step);
        MoveServesEarned(cfg, After(cfg, before), After(cfg, run));
      }
  }

  lemma MoveServesEarned(cfg: Config, s: System, t: System)
    requires cfg.waitEnabled && cfg.captchaEnabled && AllPatient(cfg, s) && Move(cfg, s, t)
    requires AllServedEarned(cfg, s.history)
    ensures AllServedEarned(cfg, t.history)
  {
    var event := t.history.event;
    if event.Served? {
      assert PatienceOK(cfg, s, event.id, s.world.sessions[event.id]);
    }
  }

  /** The events that come with the answer `Allow`. */
  predicate Serves(event: Event) {
    event.Served? || event.AdmittedAfterWait? || (event.Contacted? && event.state == Admitted)
  }

  lemma ContactAllowIsRecorded(cfg: Config, w: World, id: SessionId, f: Faults)
    ensures Contact(cfg, w, id, f).reply == Allow <==> Serves(Contact(cfg, w, id, f).event)
  {
  }

  lemma PassWaitAllowIsRecorded(cfg: Config, w: World, id: SessionId, f: Faults)
    ensures PassWait(cfg, w, id, f).reply == Allow <==> Serves(PassWait(cfg, w, id, f).event)
  {
  }

  /** A request is served exactly when the history says so. */
  lemma AllowIsRecorded(cfg: Config, w: World, id: SessionId, f: Faults)
    ensures Evaluate(cfg, w, id, f).reply == Allow <==> Serves(Evaluate(cfg, w, id, f).event)
  {
    ContactAllowIsRecorded(cfg, w, id, f);
    PassWaitAllowIsRecorded(cfg, w, id, f);
  }

  /** Every request served in `h` was for a session that had earned it by then. */
  predicate AllServedEarned(cfg: Config, h: History) {
    match h
    case Start => true
    case Then(past, event, _) =>
      && AllServedEarned(cfg, past)
      && (event.Served? ==> Earned(cfg, past, event.id))
      && !event.AdmittedAfterWait?
      && (event.Contacted? ==> event.state == Waiting)
  }
}
