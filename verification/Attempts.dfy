/**
 One challenge, in every configuration, with or without a wait room: at most `maxAttempts` wrong answers are
 compared for it in any run, apart from those that could not be counted because a store call failed.
 */
module Attempts {
  import opened Basics
  import opened TtlMaps
  import opened Sessions
  import opened Protocol
  import opened Runs
  import opened Moves

  predicate Misses(event: Event, ch: ChallengeId) {
    (event.Guessed? || event.Expelled?) && event.challenge == ch
  }

  /** Wrong answers compared for `ch`. */
  function WrongFor(h: History, ch: ChallengeId): nat {
    match h
    case Start => 0
    case Then(past, event, _) => WrongFor(past, ch) + if Misses(event, ch) then 1 else 0
  }

  /** Those that could not be counted. */
  function UncountedFor(h: History, ch: ChallengeId): nat {
    match h
    case Start => 0
    case Then(past, event, _) =>
      UncountedFor(past, ch) + if Misses(event, ch) && event.Guessed? && event.tally.Uncounted? then 1 else 0
  }

  /** The session faces the challenge. */
  predicate Faces(w: World, id: SessionId, ch: ChallengeId) {
    Before(w, id, ChallengeRequired) && w.sessions[id].value.challenge == Some(ch) && ch in w.challenges
  }

  /** As long as anyone faces the challenge, its stored attempts account for all counted wrong answers. */
  predicate AccountedFor(s: System, ch: ChallengeId, id: SessionId) {
    Faces(s.world, id, ch) ==>
      WrongFor(s.history, ch) <= s.world.challenges[ch].value.attempts + UncountedFor(s.history, ch)
  }

  /** Without challenges there is nothing to attempt. */
  function Limit(cfg: Config): int {
    if cfg.captchaEnabled then cfg.maxAttempts else 0
  }

  ghost predicate Limited(cfg: Config, s: System, ch: ChallengeId) {
    && WrongFor(s.history, ch) <= Limit(cfg) + UncountedFor(s.history, ch)
    && (WrongFor(s.history, ch) > 0 ==> ch in s.challengeIds)
    && forall id :: AccountedFor(s, ch, id)
  }

  /** Only one session does. */
  lemma OneFaces(cfg: Config, s: System, ch: ChallengeId, id: SessionId, other: SessionId)
    requires WellFormed(cfg, s) && Faces(s.world, id, ch) && Faces(s.world, other, ch)
    ensures id == other
  {
    assert SessionOK(cfg, s, id, s.world.sessions[id]) && SessionOK(cfg, s, other, s.world.sessions[other]);
  }

  /** So a wrong answer to it is that session's. */
  lemma MissIsOwn(cfg: Config, s: System, t: System, ch: ChallengeId, id: SessionId)
    requires WellFormed(cfg, s) && Move(cfg, s, t) && Misses(t.history.event, ch) && Faces(t.world, id, ch)
    ensures t.history.event.id == id
  {
    if !Writes(t.history.event, id) {
      MovesLeaveOthers(cfg, s, t, id);
    }
    if Faces(s.world, id, ch) {
      OneFaces(cfg, s, ch, id, t.history.event.id);
    }
  }

  lemma MissKeepsAccount(cfg: Config, s: System, t: System, ch: ChallengeId, id: SessionId)
    requires WellFormed(cfg, s) && Move(cfg, s, t) && AccountedFor(s, ch, id)
    requires Misses(t.history.event, ch) && t.history.event.id == id
    ensures AccountedFor(t, ch, id)
  {
  }

  /** Without one, the stored attempts stay. */
  lemma AttemptsStay(cfg: Config, s: System, t: System, ch: ChallengeId)
    requires WellFormed(cfg, s) && Move(cfg, s, t) && !Misses(t.history.event, ch)
    requires ch in s.challengeIds && ch in t.world.challenges
    ensures ch in s.world.challenges
    ensures t.world.challenges[ch].value.attempts == s.world.challenges[ch].value.attempts
  {
    MovesCarryChallenges(cfg, s, t, ch);
  }

  /** And nobody faces the challenge who did not, unless it is new. */
  lemma FacedBefore(cfg: Config, s: System, t: System, ch: ChallengeId, id: SessionId)
    requires WellFormed(cfg, s) && Move(cfg, s, t) && ch in s.challengeIds && ch in s.world.challenges
    requires Faces(t.world, id, ch)
    ensures Faces(s.world, id, ch)
  {
    if !Writes(t.history.event, id) {
      MovesLeaveOthers(cfg, s, t, id);
    }
  }

  lemma OthersKeepAccount(cfg: Config, s: System, t: System, ch: ChallengeId, id: SessionId)
    requires WellFormed(cfg, s) && Move(cfg, s, t) && Limited(cfg, s, ch) && !Misses(t.history.event, ch)
    ensures AccountedFor(t, ch, id)
  {
    if Faces(t.world, id, ch) && ch in s.challengeIds {
      AttemptsStay(cfg, s, t, ch);
      FacedBefore(cfg, s, t, ch, id);
      assert AccountedFor(s, ch, id);
    }
  }

  lemma MoveKeepsAccount(cfg: Config, s: System, t: System, ch: ChallengeId, id: SessionId)
    requires WellFormed(cfg, s) && Move(cfg, s, t) && Limited(cfg, s, ch)
    ensures AccountedFor(t, ch, id)
  {
    if !Misses(t.history.event, ch) {
      OthersKeepAccount(cfg, s, t, ch, id);
    } else if Faces(t.world, id, ch) {
      MissIsOwn(cfg, s, t, ch, id);
      MissKeepsAccount(cfg, s, t, ch, id);
    }
  }

  lemma MoveKeepsLimit(cfg: Config, s: System, t: System, ch: ChallengeId)
    requires cfg.Valid() && WellFormed(cfg, s) && Move(cfg, s, t) && Limited(cfg, s, ch)
    ensures Limited(cfg, t, ch)
  {
    forall id ensures AccountedFor(t, ch, id) {
      MoveKeepsAccount(cfg, s, t, ch, id);
    }
    if Misses(t.history.event, ch) {
      assert AccountedFor(s, ch, t.history.event.id);
      assert ChallengeOK(cfg, s, ch, s.world.challenges[ch]);
      assert SessionOK(cfg, s, t.history.event.id, s.world.sessions[t.history.event.id]);
    }
  }

  lemma {:induction false} RunsAreLimited(cfg: Config, run: Run, ch: ChallengeId)
    requires cfg.Valid() && EngineRun(cfg, run)
    ensures Limited(cfg, After(cfg, run), ch)
  {
    match run
    case Init(_) =>
    case Next(before, step) =>
      RunsAreLimited(cfg, before, ch);
      RunsAreWellFormed(cfg, before);
      if IsClockStep(step) {
        forall id ensures AccountedFor(After(cfg, run), ch, id) {
          assert AccountedFor(After(cfg, before), ch, id);
        }
      } else {
        OperationIsMove(cfg, After(cfg, before), step);
        MoveKeepsLimit(cfg, After(cfg, before), After(cfg, run), ch);
      }
  }

  /** In every run; and if no call fails in it, `maxAttempts` is the limit. */
  lemma AttemptsAreLimited(cfg: Config, run: Run, ch: ChallengeId)
    requires cfg.Valid() && EngineRun(cfg, run)
    ensures var h := After(cfg, run).history;
      && WrongFor(h, ch) <= Limit(cfg) + UncountedFor(h, ch)
      && (FaultFree(h) ==> WrongFor(h, ch) <= Limit(cfg))
  {
    RunsAreLimited(cfg, run, ch);
    AllAreCounted(cfg, run, ch);
  }

  lemma {:induction false} AllAreCounted(cfg: Config, run: Run, ch: ChallengeId)
    requires cfg.Valid() && EngineRun(cfg, run)
    ensures FaultFree(After(cfg, run).history) ==> UncountedFor(After(cfg, run).history, ch) == 0
  {
    match run
    case Init(_) =>
    case Next(before, step) =>
      AllAreCounted(cfg, before, ch);
      if !IsClockStep(step) {
        RunsAreWellFormed(cfg, before);
        OperationIsMove(cfg, After(cfg, before), step);
      }
  }
}
