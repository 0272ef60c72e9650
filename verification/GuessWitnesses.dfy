/**
 Why the guess budget says no more than it does: for each way in which a failing store call can make the
 store forget attempts, a run that uses them all; and the exact configurations in which none can.
 */
module GuessWitnesses {
  import opened Arithmetic
  import opened Basics
  import opened TtlMaps
  import opened Sessions
  import opened Protocol
  import opened Runs
  import opened Visits
  import opened GuessBudget

  // the store calls that fail, and the steps in which they do
  const LOOKUP_FAILS: Faults := NONE_FAIL.(lookup := true)
  const SAVE_FAILS: Faults := NONE_FAIL.(save := true)
  const SAVE_AND_DELETE_FAIL: Faults := SAVE_FAILS.(delete := true)
  const SAVE_AND_UNDO_FAIL: Faults := SAVE_FAILS.(undo := true)

  const BLIND_REISSUE: Step := IssueChallenge(GUEST, OTHER, "X", LOOKUP_FAILS)
  const REISSUE: Step := IssueChallenge(GUEST, OTHER, "X", NONE_FAIL)
  const UNPUNISHED_GUESS: Step := ValidateChallenge(GUEST, "Y", SAVE_FAILS)
  const UNCOUNTED_GUESS: Step := ValidateChallenge(GUEST, "Y", SAVE_AND_DELETE_FAIL)
  const LOST_SOLUTION: Step := ValidateChallenge(GUEST, "X", SAVE_AND_UNDO_FAIL)

  // ---- one guess is left -----------------------------------------------------------------------

  /** The session has one guess left; what happened so far is `h`. */
  function LastChance(cfg: Config, h: History): System
    requires cfg.maxAttempts > 0
  {
    System(Shown(cfg, cfg.waitTime, FIRST, map[FIRST := Posed(cfg, cfg.waitTime, FIRST, cfg.maxAttempts - 1)]), h,
           {GUEST}, {FIRST})
  }

  /** The challenge is gone, but the session still faces it. */
  function Bereft(cfg: Config, h: History): System {
    System(Shown(cfg, cfg.waitTime, FIRST, map[]), h, {GUEST}, {FIRST})
  }

  /** A run to that point. */
  lemma SomeLastChance(cfg: Config) returns (run: Run, h: History)
    requires CanBeChallenged(cfg)
    ensures EngineRun(cfg, run) && After(cfg, run) == LastChance(cfg, h) && Counts(cfg, h, cfg.maxAttempts - 1, 0)
  {
    var challenged := SomeChallenge(cfg, 0);
    var (now, n) := (cfg.waitTime, cfg.maxAttempts - 1);
    var (visit, stored) := (Visit(cfg, 0), map[FIRST := Posed(cfg, now, FIRST, 0)]);
    run := SomeGuesses(cfg, challenged, JustShown(cfg, now, visit), now, FIRST, stored, n);
    h := Missed(visit, FIRST, now, n);
    Overwritten(FIRST, Posed(cfg, now, FIRST, 0), Posed(cfg, now, FIRST, n));
    VisitCounts(cfg);
    MissedCounts(cfg, visit, FIRST, n, 0, 0);
  }

  lemma Overwritten<K, V>(k: K, v: V, w: V)
    ensures map[k := v][k := w] == map[k := w]
  {
  }

  // ---- what a failing call does then -----------------------------------------------------------

  lemma BlindReissueIs(cfg: Config, h: History)
    requires CanBeChallenged(cfg)
    ensures var (s, now) := (LastChance(cfg, h), cfg.waitTime);
      Apply(cfg, s, BLIND_REISSUE)
      == System(Shown(cfg, now, OTHER, s.world.challenges[OTHER := Posed(cfg, now, OTHER, 0)]),
                Then(h, Issued(GUEST, OTHER, "X", now, true), true), {GUEST}, {FIRST, OTHER})
  {
  }

  lemma ReissueIs(cfg: Config, h: History)
    requires CanBeChallenged(cfg)
    ensures var now := cfg.waitTime;
      Apply(cfg, Bereft(cfg, h), REISSUE)
      == System(Shown(cfg, now, OTHER, map[OTHER := Posed(cfg, now, OTHER, 0)]),
                Then(h, Issued(GUEST, OTHER, "X", now, false), false), {GUEST}, {FIRST, OTHER})
  {
  }

  lemma UnpunishedGuessIs(cfg: Config, h: History)
    requires CanBeChallenged(cfg)
    ensures Apply(cfg, LastChance(cfg, h), UNPUNISHED_GUESS)
         == Bereft(cfg, Then(h, Guessed(GUEST, FIRST, cfg.waitTime, Dropped), true))
  {
    assert LastChance(cfg, h).world.challenges - {FIRST} == map[];
  }

  lemma UncountedGuessIs(cfg: Config, h: History)
    requires CanBeChallenged(cfg)
    ensures Apply(cfg, LastChance(cfg, h), UNCOUNTED_GUESS)
         == LastChance(cfg, Then(h, Guessed(GUEST, FIRST, cfg.waitTime, Uncounted), true))
  {
  }

  lemma LostSolutionIs(cfg: Config, h: History)
    requires CanBeChallenged(cfg)
    ensures Apply(cfg, LastChance(cfg, h), LOST_SOLUTION)
         == Bereft(cfg, Then(h, Touched(GUEST, FIRST, cfg.waitTime, true), true))
  {
    assert LastChance(cfg, h).world.challenges - {FIRST} == map[];
  }

  // ---- and then all guesses again --------------------------------------------------------------

  function Spent(cfg: Config, h: History): History
    requires cfg.maxAttempts > 0
  {
    Then(Missed(h, OTHER, cfg.waitTime, cfg.maxAttempts - 1), Expelled(GUEST, OTHER, cfg.waitTime), false)
  }

  lemma SpendOther(cfg: Config, run: Run, h: History, stored: map<ChallengeId, Entry<Challenge>>) returns (end: Run)
    requires CanBeChallenged(cfg) && EngineRun(cfg, run)
    requires OTHER in stored && stored[OTHER] == Posed(cfg, cfg.waitTime, OTHER, 0)
    requires After(cfg, run) == System(Shown(cfg, cfg.waitTime, OTHER, stored), h, {GUEST}, {FIRST, OTHER})
    ensures EngineRun(cfg, end) && After(cfg, end).world.now == cfg.waitTime && After(cfg, end).history == Spent(cfg, h)
  {
    end := AllGuesses(cfg, run, After(cfg, run), cfg.waitTime, OTHER, stored);
  }

  /** After the challenge is gone: a new one is issued, and all guesses at it follow. */
  lemma SecondRound(cfg: Config, bereft: Run, h: History, wrong: int, extra: int) returns (end: Run)
    requires CanBeChallenged(cfg) && EngineRun(cfg, bereft) && After(cfg, bereft) == Bereft(cfg, h)
    requires Counts(cfg, h, wrong, extra) && wrong == extra
    ensures Reaches(cfg, end, wrong + cfg.maxAttempts)
  {
    var now := cfg.waitTime;
    var shown := Then(h, Issued(GUEST, OTHER, "X", now, false), false);
    ReissueIs(cfg, h);
    Onward(cfg, bereft, REISSUE);
    end := SpendOther(cfg, Next(bereft, REISSUE), shown, map[OTHER := Posed(cfg, now, OTHER, 0)]);
    assert Counts(cfg, shown, wrong, extra);
    SpentCounts(cfg, shown, wrong, extra);
    CountsReach(cfg, end, wrong + cfg.maxAttempts, extra);
  }

  // ---- counting --------------------------------------------------------------------------------

  /** What the history says of the session: first contact at 0, so many wrong answers and forgotten attempts. */
  predicate Counts(cfg: Config, h: History, wrong: int, extra: int) {
    FirstContactAt(h, GUEST) == Some(0) && WrongGuesses(h, GUEST) == wrong && Extra(cfg, h, GUEST) == extra
  }

  lemma {:induction false} MissedCounts(cfg: Config, h: History, ch: ChallengeId, n: nat, wrong: int, extra: int)
    requires Counts(cfg, h, wrong, extra)
    ensures Counts(cfg, Missed(h, ch, cfg.waitTime, n), wrong + n, extra)
  {
    if n > 0 {
      MissedCounts(cfg, h, ch, n - 1, wrong, extra);
    }
  }

  lemma VisitCounts(cfg: Config)
    ensures Counts(cfg, Visit(cfg, 0), 0, 0)
  {
    assert Counts(cfg, Arrival(cfg).past, 0, 0);
    assert Counts(cfg, Arrival(cfg), 0, 0);
  }

  lemma SpentCounts(cfg: Config, h: History, wrong: int, extra: int)
    requires cfg.maxAttempts > 0 && Counts(cfg, h, wrong, extra)
    ensures Counts(cfg, Spent(cfg, h), wrong + cfg.maxAttempts, extra)
  {
    MissedCounts(cfg, h, OTHER, cfg.maxAttempts - 1, wrong, extra);
  }

  /** A run after one full wait, with so many wrong answers, which are all that the budget allows. */
  predicate Reaches(cfg: Config, run: Run, wrong: int) {
    && EngineRun(cfg, run) && cfg.waitTime > 0
    && var (h, now) := (After(cfg, run).history, After(cfg, run).world.now);
       && now / cfg.waitTime == 1
       && FirstContactAt(h, GUEST) == Some(0)
       && wrong == WrongGuesses(h, GUEST) == cfg.maxAttempts * (now / cfg.waitTime) + Extra(cfg, h, GUEST)
  }

  lemma CountsReach(cfg: Config, run: Run, wrong: int, extra: int)
    requires cfg.waitTime > 0 && EngineRun(cfg, run) && After(cfg, run).world.now == cfg.waitTime
    requires Counts(cfg, After(cfg, run).history, wrong, extra) && wrong == cfg.maxAttempts + extra
    ensures Reaches(cfg, run, wrong)
  {
    QuotientIs(cfg.waitTime, cfg.waitTime, 1);
  }

  // ---- the four ways ---------------------------------------------------------------------------

  /** A failed lookup replaces the challenge: `maxAttempts - 1` more guesses. */
  lemma FailedLookupBuysGuesses(cfg: Config) returns (run: Run)
    requires CanBeChallenged(cfg)
    ensures Reaches(cfg, run, 2 * cfg.maxAttempts - 1)
  {
    var (n, now) := (cfg.maxAttempts, cfg.waitTime);
    var chance, h := SomeLastChance(cfg);
    var shown := Then(h, Issued(GUEST, OTHER, "X", now, true), true);
    BlindReissueIs(cfg, h);
    Onward(cfg, chance, BLIND_REISSUE);
    var stored := LastChance(cfg, h).world.challenges[OTHER := Posed(cfg, now, OTHER, 0)];
    run := SpendOther(cfg, Next(chance, BLIND_REISSUE), shown, stored);
    SpentCounts(cfg, shown, n - 1, n - 1);
    CountsReach(cfg, run, 2 * n - 1, n - 1);
  }

  /** The last guess drops the challenge, but the expulsion is not saved: `maxAttempts` more. */
  lemma FailedExpulsionBuysGuesses(cfg: Config) returns (run: Run)
    requires CanBeChallenged(cfg)
    ensures Reaches(cfg, run, 2 * cfg.maxAttempts)
  {
    var chance, h := SomeLastChance(cfg);
    UnpunishedGuessIs(cfg, h);
    Onward(cfg, chance, UNPUNISHED_GUESS);
    var dropped := Then(h, Guessed(GUEST, FIRST, cfg.waitTime, Dropped), true);
    run := SecondRound(cfg, Next(chance, UNPUNISHED_GUESS), dropped, cfg.maxAttempts, cfg.maxAttempts);
  }

  /** The right answer consumes the challenge, and neither the admission nor the challenge is saved. */
  lemma LostSolutionBuysGuesses(cfg: Config) returns (run: Run)
    requires CanBeChallenged(cfg)
    ensures Reaches(cfg, run, 2 * cfg.maxAttempts - 1)
  {
    var chance, h := SomeLastChance(cfg);
    LostSolutionIs(cfg, h);
    Onward(cfg, chance, LOST_SOLUTION);
    var lost := Then(h, Touched(GUEST, FIRST, cfg.waitTime, true), true);
    run := SecondRound(cfg, Next(chance, LOST_SOLUTION), lost, cfg.maxAttempts - 1, cfg.maxAttempts - 1);
  }

  /** Guesses that leave no trace in the store, any number of them. */
  lemma {:induction false} SomeTracelessGuesses(cfg: Config, n: nat) returns (run: Run, h: History)
    requires CanBeChallenged(cfg)
    ensures EngineRun(cfg, run) && After(cfg, run) == LastChance(cfg, h)
    ensures Counts(cfg, h, cfg.maxAttempts - 1 + n, n)
  {
    if n == 0 {
      run, h := SomeLastChance(cfg);
    } else {
      var fewer, past := SomeTracelessGuesses(cfg, n - 1);
      UncountedGuessIs(cfg, past);
      Onward(cfg, fewer, UNCOUNTED_GUESS);
      run, h := Next(fewer, UNCOUNTED_GUESS), Then(past, Guessed(GUEST, FIRST, cfg.waitTime, Uncounted), true);
    }
  }

  /** Wrong answers that cannot be counted add up without end. */
  lemma UncountedGuessesAreFree(cfg: Config, n: nat) returns (run: Run)
    requires CanBeChallenged(cfg)
    ensures Reaches(cfg, run, cfg.maxAttempts + n)
  {
    var now := cfg.waitTime;
    var chance, h := SomeTracelessGuesses(cfg, n);
    Overwritten(FIRST, Posed(cfg, now, FIRST, 0), Posed(cfg, now, FIRST, cfg.maxAttempts - 1));
    LastGuessIs(cfg, LastChance(cfg, h), now, FIRST, map[FIRST := Posed(cfg, now, FIRST, 0)]);
    Onward(cfg, chance, GUESS);
    run := Next(chance, GUESS);
    assert Counts(cfg, Then(h, Expelled(GUEST, FIRST, now), false), cfg.maxAttempts + n, n);
    CountsReach(cfg, run, cfg.maxAttempts + n, n);
  }

  lemma ExceedsPlainBudget(cfg: Config, run: Run, wrong: int)
    requires Reaches(cfg, run, wrong) && wrong > cfg.maxAttempts
    ensures FirstContactAt(After(cfg, run).history, GUEST).Some?
    ensures !WithinPlainBudget(cfg, After(cfg, run), GUEST)
  {
    var (h, now) := (After(cfg, run).history, After(cfg, run).world.now);
    assert FirstContactAt(h, GUEST).value == 0 && (now - 0) / cfg.waitTime == 1;
    assert cfg.maxAttempts * ((now - 0) / cfg.waitTime) == cfg.maxAttempts;
  }

  /**
   With both frictions, `maxAttempts` wrong answers for each full wait are all there can be, whatever fails,
   exactly in the configurations in which no session outlives its wait. In all others one failing call is enough.
   */
  lemma PlainBudgetIsKeptIffNobodyGetsThrough(cfg: Config)
    requires cfg.Valid() && cfg.waitEnabled && cfg.captchaEnabled
    ensures KeepsPlainBudget(cfg) <==> NobodyGetsThrough(cfg)
  {
    if NobodyGetsThrough(cfg) {
      forall run, id | EngineRun(cfg, run) && FirstContactAt(After(cfg, run).history, id).Some?
        ensures WithinPlainBudget(cfg, After(cfg, run), id)
      {
        StuckIsWithinBudget(cfg, run, id);
      }
    } else {
      var run := FailedExpulsionBuysGuesses(cfg);
      ExceedsPlainBudget(cfg, run, 2 * cfg.maxAttempts);
    }
  }
}
