/**
 One visit to the challenge, as runs in which (almost) nothing fails: a session waits, lets some more time
 pass, is issued a challenge and guesses. `GuessWitnesses` and `CapacityWitnesses` build on it.
 */
module Visits {
  import opened Basics
  import opened TtlMaps
  import opened Sessions
  import opened Protocol
  import opened Runs
  import opened Moves

  const NONE_FAIL: Faults := Faults(false, false, false, false, false, false, false, false, false)

  // the session that visits, and the challenges drawn for it
  const GUEST: SessionId := SessionId(0)
  const FIRST: ChallengeId := ChallengeId(0)
  const OTHER: ChallengeId := ChallengeId(1)

  const GUESS: Step := ValidateChallenge(GUEST, "Y", NONE_FAIL)

  /** Both frictions, and sessions live long enough to see the end of their wait. */
  predicate CanBeChallenged(cfg: Config) {
    && cfg.Valid() && cfg.waitEnabled && cfg.captchaEnabled
    && (cfg.absoluteLifetime == 0 || cfg.absoluteLifetime > cfg.waitTime)
  }

  function Earlier(x: Time, y: Time): Time {
    if x < y then x else y
  }

  // ---- the worlds on the way -------------------------------------------------------------------

  /** The wait of `GUEST`, which made first contact at 0, is over. */
  function Waited(cfg: Config): World {
    var deadline := Capped(Deadline(cfg, 0), cfg.waitTime + WAIT_GRACE);
    World(cfg.waitTime, map[GUEST := Entry(Candidate(cfg, 0, GUEST), deadline)], map[], map[GUEST := deadline])
  }

  /** How long it may face challenges. */
  function Until(cfg: Config): Time {
    Capped(Deadline(cfg, 0), cfg.waitTime + cfg.captchaTTL + CHALLENGE_GRACE)
  }

  function Facing(cfg: Config, ch: Option<ChallengeId>): Session {
    Session(GUEST, ChallengeRequired, 0, Some(Until(cfg)), Deadline(cfg, 0), 0, cfg.maxRenewals, 0, cfg.waitTime, ch)
  }

  /** It is asked for a challenge it does not have yet. */
  function Asked(cfg: Config, now: Time): World {
    World(now, map[GUEST := Entry(Facing(cfg, None), Until(cfg))], map[], map[GUEST := Until(cfg)])
  }

  /** A challenge issued to it at `now`; counting an attempt writes it anew. */
  function Posed(cfg: Config, now: Time, ch: ChallengeId, attempts: nat): Entry<Challenge> {
    var deadline := now + cfg.captchaTTL;
    Entry(Challenge(ch, GUEST, "X", now, deadline, attempts, cfg.maxAttempts),
          if attempts == 0 then Earlier(Until(cfg), deadline) else deadline)
  }

  /** It faces `ch`, one of the stored challenges. */
  function Shown(cfg: Config, now: Time, ch: ChallengeId, stored: map<ChallengeId, Entry<Challenge>>): World {
    World(now, map[GUEST := Entry(Facing(cfg, Some(ch)), Earlier(Until(cfg), now + cfg.captchaTTL))], stored,
          map[GUEST := Until(cfg)])
  }

  /** It is back in the wait room; its reservation is not renewed. */
  function SentHome(cfg: Config, now: Time, stored: map<ChallengeId, Entry<Challenge>>): World {
    var deadline := Capped(Deadline(cfg, 0), now + cfg.waitTime + WAIT_GRACE);
    var home := Facing(cfg, None).(state := Waiting, firstSeen := now, expiresAt := Some(deadline));
    World(now, map[GUEST := Entry(home, deadline)], stored, map[GUEST := Until(cfg)])
  }

  lemma WaitedToAsked(cfg: Config)
    requires CanBeChallenged(cfg)
    ensures Evaluate(cfg, Waited(cfg), GUEST, NONE_FAIL)
         == Outcome(Asked(cfg, cfg.waitTime), Hold(ChallengeRequired, 0), WaitPassed(GUEST, cfg.waitTime))
  {
  }

  lemma AskedToShown(cfg: Config, now: Time)
    requires CanBeChallenged(cfg) && now < Until(cfg)
    ensures Issue(cfg, Asked(cfg, now), GUEST, FIRST, "X", NONE_FAIL)
         == Outcome(Shown(cfg, now, FIRST, map[FIRST := Posed(cfg, now, FIRST, 0)]), Present(FIRST),
                    Issued(GUEST, FIRST, "X", now, false))
  {
  }

  lemma MissIsCounted(cfg: Config, now: Time, ch: ChallengeId, stored: map<ChallengeId, Entry<Challenge>>,
                      attempts: nat)
    requires CanBeChallenged(cfg) && now < Until(cfg) && ch in stored && stored[ch] == Posed(cfg, now, ch, attempts)
    requires attempts + 1 < cfg.maxAttempts
    ensures var o := Validate(cfg, Shown(cfg, now, ch, stored), GUEST, "Y", NONE_FAIL);
      && o.world == Shown(cfg, now, ch, stored[ch := Posed(cfg, now, ch, attempts + 1)])
      && o.event == Guessed(GUEST, ch, now, Counted)
  {
  }

  lemma LastMissExpels(cfg: Config, now: Time, ch: ChallengeId, stored: map<ChallengeId, Entry<Challenge>>)
    requires CanBeChallenged(cfg) && now < Until(cfg)
    requires ch in stored && stored[ch] == Posed(cfg, now, ch, cfg.maxAttempts - 1)
    ensures var o := Validate(cfg, Shown(cfg, now, ch, stored), GUEST, "Y", NONE_FAIL);
      && o.event == Expelled(GUEST, ch, now) && o.world == SentHome(cfg, now, stored - {ch})
  {
  }

  // ---- the runs --------------------------------------------------------------------------------

  lemma Onward(cfg: Config, run: Run, step: Step)
    requires EngineRun(cfg, run) && Fresh(After(cfg, run), step) && !step.TransitionOne?
    ensures EngineRun(cfg, Next(run, step)) && After(cfg, Next(run, step)) == Apply(cfg, After(cfg, run), step)
  {
  }

  function Arrival(cfg: Config): History {
    Then(Then(Start, Contacted(GUEST, Waiting, 0), false), WaitPassed(GUEST, cfg.waitTime), false)
  }

  function Visit(cfg: Config, late: nat): History {
    Then(Arrival(cfg), Issued(GUEST, FIRST, "X", cfg.waitTime + late, false), false)
  }

  lemma SomeWait(cfg: Config) returns (run: Run)
    requires CanBeChallenged(cfg)
    ensures EngineRun(cfg, run)
    ensures After(cfg, run) == System(Waited(cfg), Then(Start, Contacted(GUEST, Waiting, 0), false), {GUEST}, {})
  {
    var contacted := Next(Init(0), FirstContact(GUEST, NONE_FAIL));
    assert After(cfg, Init(0)) == System(World(0, map[], map[], map[]), Start, {}, {});
    Onward(cfg, Init(0), FirstContact(GUEST, NONE_FAIL));
    run := Next(contacted, Tick(cfg.waitTime));
    Onward(cfg, contacted, Tick(cfg.waitTime));
  }

  /** Wait, ask for a challenge, and idle for `late`. */
  lemma SomeDemand(cfg: Config, late: nat) returns (run: Run)
    requires CanBeChallenged(cfg)
    ensures EngineRun(cfg, run)
    ensures After(cfg, run) == System(Asked(cfg, cfg.waitTime + late), Arrival(cfg), {GUEST}, {})
  {
    var waited := SomeWait(cfg);
    var asked := Next(waited, Request(GUEST, NONE_FAIL));
    WaitedToAsked(cfg);
    Onward(cfg, waited, Request(GUEST, NONE_FAIL));
    run := Next(asked, Tick(late));
    Onward(cfg, asked, Tick(late));
  }

  /** The session has just been shown its first challenge. */
  function JustShown(cfg: Config, now: Time, h: History): System {
    System(Shown(cfg, now, FIRST, map[FIRST := Posed(cfg, now, FIRST, 0)]), h, {GUEST}, {FIRST})
  }

  /** A run to that point. */
  lemma SomeChallenge(cfg: Config, late: nat) returns (run: Run)
    requires CanBeChallenged(cfg) && cfg.waitTime + late < Until(cfg)
    ensures EngineRun(cfg, run) && After(cfg, run) == JustShown(cfg, cfg.waitTime + late, Visit(cfg, late))
  {
    var asked := SomeDemand(cfg, late);
    run := ChallengedFrom(cfg, asked, cfg.waitTime + late);
  }

  lemma ChallengedFrom(cfg: Config, asked: Run, now: Time) returns (run: Run)
    requires CanBeChallenged(cfg) && now < Until(cfg)
    requires EngineRun(cfg, asked) && After(cfg, asked) == System(Asked(cfg, now), Arrival(cfg), {GUEST}, {})
    ensures EngineRun(cfg, run)
    ensures After(cfg, run) == JustShown(cfg, now, Then(Arrival(cfg), Issued(GUEST, FIRST, "X", now, false), false))
  {
    run := Next(asked, IssueChallenge(GUEST, FIRST, "X", NONE_FAIL));
    AskedToShown(cfg, now);
    Onward(cfg, asked, IssueChallenge(GUEST, FIRST, "X", NONE_FAIL));
  }

  /** The history of `n` wrong guesses in a row. */
  function Missed(h: History, ch: ChallengeId, now: Time, n: nat): History {
    if n == 0 then h else Then(Missed(h, ch, now, n - 1), Guessed(GUEST, ch, now, Counted), false)
  }

  /** The system after `n` of them, none the last. */
  function Midway(cfg: Config, s: System, now: Time, ch: ChallengeId, stored: map<ChallengeId, Entry<Challenge>>,
                  n: nat): System {
    s.(world := Shown(cfg, now, ch, stored[ch := Posed(cfg, now, ch, n)]), history := Missed(s.history, ch, now, n))
  }

  lemma OneMoreMiss(cfg: Config, s: System, now: Time, ch: ChallengeId, stored: map<ChallengeId, Entry<Challenge>>,
                    n: nat)
    requires CanBeChallenged(cfg) && now < Until(cfg) && n + 1 < cfg.maxAttempts
    ensures Apply(cfg, Midway(cfg, s, now, ch, stored, n), GUESS) == Midway(cfg, s, now, ch, stored, n + 1)
  {
    var before := stored[ch := Posed(cfg, now, ch, n)];
    MissIsCounted(cfg, now, ch, before, n);
    assert before[ch := Posed(cfg, now, ch, n + 1)] == stored[ch := Posed(cfg, now, ch, n + 1)];
  }

  /** All guesses but the last are counted, and nothing else happens. */
  lemma {:induction false} SomeGuesses(cfg: Config, run: Run, s: System, now: Time, ch: ChallengeId,
                                       stored: map<ChallengeId, Entry<Challenge>>, n: nat) returns (end: Run)
    requires CanBeChallenged(cfg) && now < Until(cfg) && n < cfg.maxAttempts
    requires ch in stored && stored[ch] == Posed(cfg, now, ch, 0)
    requires EngineRun(cfg, run) && After(cfg, run) == s && s.world == Shown(cfg, now, ch, stored)
    ensures EngineRun(cfg, end) && After(cfg, end) == Midway(cfg, s, now, ch, stored, n)
  {
    if n == 0 {
      end := run;
      assert stored[ch := Posed(cfg, now, ch, 0)] == stored;
    } else {
      var fewer := SomeGuesses(cfg, run, s, now, ch, stored, n - 1);
      OneMoreMiss(cfg, s, now, ch, stored, n - 1);
      Onward(cfg, fewer, GUESS);
      end := Next(fewer, GUESS);
    }
  }

  /** The last one expels. */
  lemma AllGuesses(cfg: Config, run: Run, s: System, now: Time, ch: ChallengeId,
                   stored: map<ChallengeId, Entry<Challenge>>) returns (end: Run)
    requires CanBeChallenged(cfg) && now < Until(cfg)
    requires ch in stored && stored[ch] == Posed(cfg, now, ch, 0)
    requires EngineRun(cfg, run) && After(cfg, run) == s && s.world == Shown(cfg, now, ch, stored)
    ensures EngineRun(cfg, end)
    ensures After(cfg, end)
         == s.(world := SentHome(cfg, now, stored - {ch}),
               history := Then(Missed(s.history, ch, now, cfg.maxAttempts - 1), Expelled(GUEST, ch, now), false))
  {
    var n := cfg.maxAttempts - 1;
    var fewer := SomeGuesses(cfg, run, s, now, ch, stored, n);
    LastGuessIs(cfg, Midway(cfg, s, now, ch, stored, n), now, ch, stored);
    Onward(cfg, fewer, GUESS);
    end := Next(fewer, GUESS);
  }

  lemma LastGuessIs(cfg: Config, s: System, now: Time, ch: ChallengeId, stored: map<ChallengeId, Entry<Challenge>>)
    requires CanBeChallenged(cfg) && now < Until(cfg)
    requires s.world == Shown(cfg, now, ch, stored[ch := Posed(cfg, now, ch, cfg.maxAttempts - 1)])
    ensures Apply(cfg, s, GUESS)
         == s.(world := SentHome(cfg, now, stored - {ch}),
               history := Then(s.history, Expelled(GUEST, ch, now), false))
  {
    var last := stored[ch := Posed(cfg, now, ch, cfg.maxAttempts - 1)];
    LastMissExpels(cfg, now, ch, last);
    assert last - {ch} == stored - {ch};
  }
}
