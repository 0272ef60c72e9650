/**
 The guess budget. With a wait room and a challenge in force, a session may have `maxAttempts` wrong
 answers compared for each full wait it has sat through. Only a failing store call adds to that, and
 only by the attempts it actually makes the store forget.
 */
module GuessBudget {
  import opened Arithmetic
  import opened Basics
  import opened TtlMaps
  import opened Sessions
  import opened Protocol
  import opened Runs
  import opened Moves

  /** Wrong answers compared for `id`. */
  function WrongGuesses(h: History, id: SessionId): nat {
    match h
    case Start => 0
    case Then(past, event, _) =>
      WrongGuesses(past, id) + if (event.Guessed? || event.Expelled?) && event.id == id then 1 else 0
  }

  /**
   Attempts an event makes the store forget: one if a wrong answer went uncounted, all if the challenge
   was dropped and the session was not sent back, all but the last one if a challenge that could still be
   answered was replaced or lost.
   */
  function Forgotten(cfg: Config, event: Event): int {
    match event
    case Guessed(_, _, _, tally) => (match tally
      case Counted => 0
      case Uncounted => 1
      case Dropped => cfg.maxAttempts)
    case Issued(_, _, _, _, again) => if again then cfg.maxAttempts - 1 else 0
    case Touched(_, _, _, lost) => if lost then cfg.maxAttempts - 1 else 0
    case _ => 0
  }

  function Extra(cfg: Config, h: History, id: SessionId): (attempts: int)
    ensures cfg.maxAttempts > 0 ==> attempts >= 0
  {
    match h
    case Start => 0
    case Then(past, event, _) => Extra(cfg, past, id) + if event.id == id then Forgotten(cfg, event) else 0
  }

  /** When `id` made first contact; a session made by rotation never did. */
  function FirstContactAt(h: History, id: SessionId): Option<Time> {
    match h
    case Start => None
    case Then(past, event, _) =>
      if event.Contacted? && event.id == id then Some(event.at) else FirstContactAt(past, id)
  }

  /** What a session first seen at `since` may have used up by `now`. */
  function Allowance(cfg: Config, since: Time, now: Time): int
    requires cfg.waitTime > 0
  {
    cfg.maxAttempts * ((now - since) / cfg.waitTime)
  }

  /** Attempts already counted against the challenge a session can answer now. */
  function Used(w: World, s: Session): nat {
    if s.challenge.Some? && IsLive(w.challenges, s.challenge.value, w.now)
    then w.challenges[s.challenge.value].value.attempts else 0
  }

  lemma AllowanceGrows(cfg: Config, since: Time, early: Time, late: Time)
    requires cfg.waitTime > 0 && cfg.maxAttempts >= 0 && early <= late
    ensures Allowance(cfg, since, early) <= Allowance(cfg, since, late)
  {
    DivMono(early - since, late - since, cfg.waitTime);
    MulMono(cfg.maxAttempts, (early - since) / cfg.waitTime, (late - since) / cfg.waitTime);
  }

  /** A full wait is worth one allowance. */
  lemma AllowanceStep(cfg: Config, since: Time, early: Time, late: Time)
    requires cfg.waitTime > 0 && cfg.maxAttempts >= 0 && early + cfg.waitTime <= late
    ensures Allowance(cfg, since, early) + cfg.maxAttempts <= Allowance(cfg, since, late)
  {
    var q := (early - since) / cfg.waitTime;
    DivShift(early - since, cfg.waitTime);
    assert cfg.maxAttempts * (q + 1) == cfg.maxAttempts * q + cfg.maxAttempts;
    AllowanceGrows(cfg, since, early + cfg.waitTime, late);
  }

  /** What holds of a stored session, given what it has used up. */
  predicate Budgeted(cfg: Config, s: System, id: SessionId)
    requires cfg.waitTime > 0
  {
    match FirstContactAt(s.history, id)
    case None =>
      && WrongGuesses(s.history, id) == 0
      && (id in s.world.sessions ==> s.world.sessions[id].value.state in {Admitted, Revoked})
    case Some(since) =>
      var (wrong, extra) := (WrongGuesses(s.history, id), Extra(cfg, s.history, id));
      && since <= s.world.now
      && id in s.sessionIds
      && wrong <= Allowance(cfg, since, s.world.now) + extra
      && (IsLive(s.world.sessions, id, s.world.now) ==>
            var v := s.world.sessions[id].value;
            match v.state
            case Waiting => wrong <= Allowance(cfg, since, v.firstSeen) + extra
            case ChallengeRequired =>
              && v.firstSeen + cfg.waitTime <= s.world.now
              && wrong <= Allowance(cfg, since, v.firstSeen) + extra + Used(s.world, v)
            case _ => true)
  }

  ghost predicate AllBudgeted(cfg: Config, s: System)
    requires cfg.waitTime > 0
  {
    forall id :: Budgeted(cfg, s, id)
  }

  lemma ClockKeepsBudget(cfg: Config, s: System, step: Step, id: SessionId)
    requires cfg.Valid() && cfg.waitEnabled && cfg.captchaEnabled
    requires WellFormed(cfg, s) && IsClockStep(step) && Budgeted(cfg, s, id)
    ensures Budgeted(cfg, Apply(cfg, s, step), id)
  {
    var t := Apply(cfg, s, step);
    var since := FirstContactAt(s.history, id);
    if since.Some? {
      AllowanceGrows(cfg, since.value, s.world.now, t.world.now);
      if IsLive(t.world.sessions, id, t.world.now) {
        assert SessionOK(cfg, s, id, s.world.sessions[id]);
      }
    }
  }

  /** Operations on one session do not change what another has used. */
  lemma UsedByOthers(cfg: Config, s: System, t: System, id: SessionId)
    requires WellFormed(cfg, s) && Move(cfg, s, t) && !Writes(t.history.event, id) && t.history.event.id != id
    requires Before(s.world, id, ChallengeRequired)
    ensures Used(t.world, s.world.sessions[id].value) == Used(s.world, s.world.sessions[id].value)
  {
    assert SessionOK(cfg, s, id, s.world.sessions[id]);
    var other := t.history.event.id;
    if other in s.world.sessions {
      assert SessionOK(cfg, s, other, s.world.sessions[other]);
    }
  }

  lemma OthersKeepBudget(cfg: Config, s: System, t: System, id: SessionId)
    requires cfg.Valid() && cfg.waitEnabled && cfg.captchaEnabled
    requires WellFormed(cfg, s) && Move(cfg, s, t) && Budgeted(cfg, s, id)
    requires !Writes(t.history.event, id) && t.history.event.id != id
    ensures Budgeted(cfg, t, id)
  {
    MovesLeaveOthers(cfg, s, t, id);
    if Before(s.world, id, ChallengeRequired) {
      UsedByOthers(cfg, s, t, id);
    }
  }

  lemma SubjectKeepsBudget(cfg: Config, s: System, t: System, id: SessionId)
    requires cfg.Valid() && cfg.waitEnabled && cfg.captchaEnabled
    requires WellFormed(cfg, s) && Move(cfg, s, t) && Budgeted(cfg, s, id)
    requires t.history.event.id == id
    ensures Budgeted(cfg, t, id)
  {
    var (w, now) := (s.world, s.world.now);
    var since := FirstContactAt(s.history, id);
    if id in w.sessions {
      assert SessionOK(cfg, s, id, w.sessions[id]);
    }
    if since.Some? && IsLive(w.sessions, id, now) {
      var v := w.sessions[id].value;
      if v.state == ChallengeRequired {
        AllowanceStep(cfg, since.value, v.firstSeen, now);
        assert Used(w, v) < cfg.maxAttempts;
      }
    }
  }

  lemma SuccessorKeepsBudget(cfg: Config, s: System, t: System, id: SessionId)
    requires cfg.Valid() && cfg.waitEnabled && cfg.captchaEnabled
    requires WellFormed(cfg, s) && Move(cfg, s, t) && Budgeted(cfg, s, id)
    requires t.history.event.Rotated? && t.history.event.successor == id && t.history.event.id != id
    ensures Budgeted(cfg, t, id)
  {
  }

  lemma OperationKeepsBudget(cfg: Config, s: System, step: Step)
    requires cfg.Valid() && cfg.waitEnabled && cfg.captchaEnabled
    requires WellFormed(cfg, s) && Fresh(s, step) && !step.TransitionOne? && !IsClockStep(step)
    requires AllBudgeted(cfg, s)
    ensures AllBudgeted(cfg, Apply(cfg, s, step))
  {
    var t := Apply(cfg, s, step);
    OperationIsMove(cfg, s, step);
    forall id ensures Budgeted(cfg, t, id) {
      assert Budgeted(cfg, s, id);
      if t.history.event.id == id {
        SubjectKeepsBudget(cfg, s, t, id);
      } else if Writes(t.history.event, id) {
        SuccessorKeepsBudget(cfg, s, t, id);
      } else {
        OthersKeepBudget(cfg, s, t, id);
      }
    }
  }

  lemma {:induction false} RunsAreBudgeted(cfg: Config, run: Run)
    requires cfg.Valid() && cfg.waitEnabled && cfg.captchaEnabled && EngineRun(cfg, run)
    ensures AllBudgeted(cfg, After(cfg, run))
  {
    match run
    case Init(_) =>
    case Next(before, step) =>
      RunsAreBudgeted(cfg, before);
      RunsAreWellFormed(cfg, before);
      var s := After(cfg, before);
      if IsClockStep(step) {
        forall id ensures Budgeted(cfg, After(cfg, run), id) {
          assert Budgeted(cfg, s, id);
          ClockKeepsBudget(cfg, s, step, id);
        }
      } else {
        OperationKeepsBudget(cfg, s, step);
      }
  }

  /**
   The guess budget of a session first seen at `since`, at any point of any run: `maxAttempts` wrong
   answers for each full wait since then, and those the store was made to forget.
   */
  lemma GuessBudgetHolds(cfg: Config, run: Run, id: SessionId, since: Time)
    requires cfg.Valid() && cfg.waitEnabled && cfg.captchaEnabled && EngineRun(cfg, run)
    requires FirstContactAt(After(cfg, run).history, id) == Some(since)
    ensures var end := After(cfg, run);
      WrongGuesses(end.history, id)
        <= cfg.maxAttempts * ((end.world.now - since) / cfg.waitTime) + Extra(cfg, end.history, id)
  {
    RunsAreBudgeted(cfg, run);
    BudgetIsAllowance(cfg, After(cfg, run), id, since);
  }

  lemma BudgetIsAllowance(cfg: Config, s: System, id: SessionId, since: Time)
    requires cfg.waitTime > 0 && AllBudgeted(cfg, s) && FirstContactAt(s.history, id) == Some(since)
    ensures WrongGuesses(s.history, id) <= Allowance(cfg, since, s.world.now) + Extra(cfg, s.history, id)
  {
    assert Budgeted(cfg, s, id);
  }

  /** No store call ever failed in an operation on `id`. */
  predicate Untroubled(h: History, id: SessionId) {
    h.Then? ==> Untroubled(h.past, id) && (h.event.id == id ==> !h.faulty)
  }

  /** Then nothing was forgotten, and the budget is `maxAttempts` for each full wait, no more. */
  lemma {:induction false} NothingForgotten(cfg: Config, run: Run, id: SessionId)
    requires cfg.Valid() && cfg.waitEnabled && EngineRun(cfg, run) && Untroubled(After(cfg, run).history, id)
    ensures Extra(cfg, After(cfg, run).history, id) == 0
  {
    match run
    case Init(_) =>
    case Next(before, step) =>
      RunsAreWellFormed(cfg, before);
      if !IsClockStep(step) {
        OperationIsMove(cfg, After(cfg, before), step);
      }
      NothingForgotten(cfg, before, id);
  }

  /** A session that never made first contact, that is, one made by rotation, is never guessed for. */
  lemma SuccessorsAreNeverGuessedFor(cfg: Config, run: Run, id: SessionId)
    requires cfg.Valid() && cfg.waitEnabled && cfg.captchaEnabled && EngineRun(cfg, run)
    requires FirstContactAt(After(cfg, run).history, id).None?
    ensures WrongGuesses(After(cfg, run).history, id) == 0
  {
    RunsAreBudgeted(cfg, run);
    assert Budgeted(cfg, After(cfg, run), id);
  }

  // ---- configurations in which nobody ever guesses ---------------------------------------------

  /** Every session's absolute deadline comes before its wait can be over. */
  predicate NobodyGetsThrough(cfg: Config) {
    0 < cfg.absoluteLifetime <= cfg.waitTime
  }

  /** A session that still waits dies by `firstSeen + absoluteLifetime`, and none ever faces a challenge. */
  predicate StuckOK(cfg: Config, s: System, id: SessionId) {
    && WrongGuesses(s.history, id) == 0
    && (id in s.world.sessions ==>
          var v := s.world.sessions[id].value;
          && v.state != ChallengeRequired
          && (v.state == Waiting ==>
                v.absoluteExpiresAt.Some? && v.absoluteExpiresAt.value <= v.firstSeen + cfg.absoluteLifetime))
  }

  lemma MoveKeepsStuck(cfg: Config, s: System, t: System, id: SessionId)
    requires cfg.Valid() && cfg.waitEnabled && cfg.captchaEnabled && NobodyGetsThrough(cfg)
    requires WellFormed(cfg, s) && Move(cfg, s, t) && StuckOK(cfg, s, id)
    ensures StuckOK(cfg, t, id)
  {
    if id in s.world.sessions {
      assert SessionOK(cfg, s, id, s.world.sessions[id]);
    }
    if !Writes(t.history.event, id) {
      MovesLeaveOthers(cfg, s, t, id);
    }
  }

  lemma {:induction false} NobodyGuesses(cfg: Config, run: Run, id: SessionId)
    requires cfg.Valid() && cfg.waitEnabled && cfg.captchaEnabled && NobodyGetsThrough(cfg) && EngineRun(cfg, run)
    ensures StuckOK(cfg, After(cfg, run), id)
  {
    match run
    case Init(_) =>
    case Next(before, step) =>
      NobodyGuesses(cfg, before, id);
      if !IsClockStep(step) {
        RunsAreWellFormed(cfg, before);
        OperationIsMove(cfg, After(cfg, before), step);
        MoveKeepsStuck(cfg, After(cfg, before), After(cfg, run), id);
      }
  }

  /** Whatever fails, no session has more than `maxAttempts` wrong answers compared for each full wait. */
  ghost predicate KeepsPlainBudget(cfg: Config)
    requires cfg.waitTime > 0
  {
    forall run, id | EngineRun(cfg, run) && FirstContactAt(After(cfg, run).history, id).Some? ::
      WithinPlainBudget(cfg, After(cfg, run), id)
  }

  predicate WithinPlainBudget(cfg: Config, s: System, id: SessionId)
    requires cfg.waitTime > 0 && FirstContactAt(s.history, id).Some?
  {
    WrongGuesses(s.history, id)
      <= cfg.maxAttempts * ((s.world.now - FirstContactAt(s.history, id).value) / cfg.waitTime)
  }

  lemma StuckIsWithinBudget(cfg: Config, run: Run, id: SessionId)
    requires cfg.Valid() && cfg.waitEnabled && cfg.captchaEnabled && NobodyGetsThrough(cfg) && EngineRun(cfg, run)
    requires FirstContactAt(After(cfg, run).history, id).Some?
    ensures WithinPlainBudget(cfg, After(cfg, run), id)
  {
    NobodyGuesses(cfg, run, id);
    var s := After(cfg, run);
    var since := FirstContactAt(s.history, id).value;
    RunsAreBudgeted(cfg, run);
    assert Budgeted(cfg, s, id);
    AllowanceGrows(cfg, since, since, s.world.now);
    assert (since - since) / cfg.waitTime == 0;
  }
}
