/**
 Why the capacity theorem says no more than it does: runs that reach its bound, one for each kind of strike,
 and the exact configurations in which a run without store failures can overbook.
 */
module CapacityWitnesses {
  import opened Basics
  import opened TtlMaps
  import opened Sessions
  import opened Protocol
  import opened Runs
  import opened Moves
  import opened Visits
  import Quota
  import Capacity

  // ---- an expulsion breaks the capacity --------------------------------------------------------

  /** The history of `n` newcomers, one after the other. */
  function Arrivals(h: History, now: Time, n: nat): History {
    if n == 0 then h else Then(Arrivals(h, now, n - 1), Contacted(SessionId(n), Waiting, now), false)
  }

  /** When the first reservation of a session that makes contact at `now` expires, and the session with it. */
  function Leaves(cfg: Config, now: Time): Time {
    Capped(Deadline(cfg, now), now + cfg.waitTime + WAIT_GRACE)
  }

  function Seated(cfg: Config, now: Time, n: nat): map<SessionId, Entry<Session>> {
    if n == 0 then SentHome(cfg, now, map[]).sessions
    else Seated(cfg, now, n - 1)[SessionId(n) := Entry(Candidate(cfg, now, SessionId(n)), Leaves(cfg, now))]
  }

  function Booked(cfg: Config, now: Time, n: nat): map<SessionId, Time> {
    if n == 0 then map[GUEST := Until(cfg)] else Booked(cfg, now, n - 1)[SessionId(n) := Leaves(cfg, now)]
  }

  lemma {:induction false} SeatsAre(cfg: Config, now: Time, n: nat)
    ensures |Seated(cfg, now, n)| == |Booked(cfg, now, n)| == n + 1
    ensures forall id | id in Seated(cfg, now, n) || id in Booked(cfg, now, n) :: id.serial <= n
    ensures GUEST in Booked(cfg, now, n) && Booked(cfg, now, n)[GUEST] == Until(cfg)
  {
    if n > 0 {
      SeatsAre(cfg, now, n - 1);
      Quota.AddKey(Seated(cfg, now, n - 1), SessionId(n),
                   Entry(Candidate(cfg, now, SessionId(n)), Leaves(cfg, now)));
      Quota.AddKey(Booked(cfg, now, n - 1), SessionId(n), Leaves(cfg, now));
    }
  }

  /** A newcomer for whom there is room, once the expired reservations are gone. */
  lemma NewcomerFits(cfg: Config, w: World, id: SessionId)
    requires CanBeChallenged(cfg) && id !in w.reservations && |Quota.LiveOnly(w.reservations, w.now)| < cfg.maxSessions
    ensures var o := Contact(cfg, w, id, NONE_FAIL);
      && o.event == Contacted(id, Waiting, w.now) && o.world.now == w.now
      && o.world.sessions == w.sessions[id := Entry(Candidate(cfg, w.now, id), Leaves(cfg, w.now))]
      && (|w.reservations| < cfg.maxSessions ==> o.world.reservations == w.reservations[id := Leaves(cfg, w.now)])
  {
  }

  /** The system once `n` newcomers have joined the session that was sent home. */
  function Joined(cfg: Config, h: History, now: Time, n: nat): System {
    System(World(now, Seated(cfg, now, n), map[], Booked(cfg, now, n)), Arrivals(h, now, n),
           set id: SessionId | id in Seated(cfg, now, n), {FIRST})
  }

  lemma NewcomerJoins(cfg: Config, h: History, now: Time, n: nat)
    requires CanBeChallenged(cfg) && 0 < n < cfg.maxSessions
    ensures Fresh(Joined(cfg, h, now, n - 1), FirstContact(SessionId(n), NONE_FAIL))
    ensures Apply(cfg, Joined(cfg, h, now, n - 1), FirstContact(SessionId(n), NONE_FAIL)) == Joined(cfg, h, now, n)
  {
    SeatsAre(cfg, now, n - 1);
    NewcomerSits(cfg, h, now, n);
    assert Joined(cfg, h, now, n).sessionIds == Joined(cfg, h, now, n - 1).sessionIds + {SessionId(n)};
  }

  lemma NewcomerSits(cfg: Config, h: History, now: Time, n: nat)
    requires CanBeChallenged(cfg) && 0 < n < cfg.maxSessions
    ensures var o := Contact(cfg, Joined(cfg, h, now, n - 1).world, SessionId(n), NONE_FAIL);
      o.world == Joined(cfg, h, now, n).world && o.event == Contacted(SessionId(n), Waiting, now)
  {
    SeatsAre(cfg, now, n - 1);
    var w := Joined(cfg, h, now, n - 1).world;
    Quota.LiveOnlyShrinks(w.reservations, now);
    NewcomerFits(cfg, w, SessionId(n));
    NewcomerKeepsChallenges(cfg, w, SessionId(n));
  }

  lemma NewcomerKeepsChallenges(cfg: Config, w: World, id: SessionId)
    ensures Contact(cfg, w, id, NONE_FAIL).world.challenges == w.challenges
  {
  }

  lemma {:induction false} SomeCrowd(cfg: Config, run: Run, h: History, now: Time, n: nat) returns (crowd: Run)
    requires CanBeChallenged(cfg) && n < cfg.maxSessions
    requires EngineRun(cfg, run) && After(cfg, run) == Joined(cfg, h, now, 0)
    ensures EngineRun(cfg, crowd) && After(cfg, crowd) == Joined(cfg, h, now, n)
  {
    if n == 0 {
      crowd := run;
    } else {
      var fewer := SomeCrowd(cfg, run, h, now, n - 1);
      NewcomerJoins(cfg, h, now, n);
      Onward(cfg, fewer, FirstContact(SessionId(n), NONE_FAIL));
      crowd := Next(fewer, FirstContact(SessionId(n), NONE_FAIL));
    }
  }

  function LastMoment(cfg: Config): Time {
    cfg.waitTime + cfg.captchaTTL + CHALLENGE_GRACE - 1
  }

  lemma LastMomentFits(cfg: Config)
    requires cfg.Valid() && !Capacity.Sheltered(cfg)
    ensures CanBeChallenged(cfg) && LastMoment(cfg) == Until(cfg) - 1
  {
  }

  /** A session is sent back to the wait room in the last moment of its reservation. */
  lemma SomeExpulsion(cfg: Config) returns (run: Run, h: History)
    requires cfg.Valid() && !Capacity.Sheltered(cfg)
    ensures EngineRun(cfg, run) && After(cfg, run) == Joined(cfg, h, LastMoment(cfg), 0)
    ensures FaultFree(h) && Capacity.Strikes(cfg, h) <= 1
  {
    LastMomentFits(cfg);
    var late := cfg.captchaTTL + CHALLENGE_GRACE - 1;
    var challenged := SomeChallenge(cfg, late);
    VisitIsFaultFree(cfg, late);
    run, h := ExpulsionFrom(cfg, challenged, Visit(cfg, late), LastMoment(cfg));
  }

  lemma ExpulsionFrom(cfg: Config, challenged: Run, visit: History, now: Time) returns (run: Run, h: History)
    requires CanBeChallenged(cfg) && now < Until(cfg) && EngineRun(cfg, challenged)
    requires After(cfg, challenged) == JustShown(cfg, now, visit)
    requires FaultFree(visit) && Capacity.Strikes(cfg, visit) == 0
    ensures EngineRun(cfg, run) && After(cfg, run) == Joined(cfg, h, now, 0)
    ensures FaultFree(h) && Capacity.Strikes(cfg, h) <= 1
  {
    var stored := map[FIRST := Posed(cfg, now, FIRST, 0)];
    var missed := Missed(visit, FIRST, now, cfg.maxAttempts - 1);
    run := AllGuesses(cfg, challenged, After(cfg, challenged), now, FIRST, stored);
    h := Then(missed, Expelled(GUEST, FIRST, now), false);
    assert stored - {FIRST} == map[];
    MissedIsFaultFree(cfg, visit, FIRST, now, cfg.maxAttempts - 1);
  }

  /** The crowd a moment later, when the place of `GUEST` is free again. */
  function Later(cfg: Config): World
    requires cfg.maxSessions > 0
  {
    var (now, n) := (LastMoment(cfg), cfg.maxSessions - 1);
    World(now + 1, Seated(cfg, now, n), map[], Booked(cfg, now, n))
  }

  lemma PlaceIsFree(cfg: Config)
    requires cfg.Valid() && !Capacity.Sheltered(cfg)
    ensures |Quota.LiveOnly(Later(cfg).reservations, Later(cfg).now)| < cfg.maxSessions
    ensures SessionId(cfg.maxSessions) !in Later(cfg).reservations
  {
    var (r, now) := (Later(cfg).reservations, Later(cfg).now);
    SeatsAre(cfg, LastMoment(cfg), cfg.maxSessions - 1);
    assert Until(cfg) == now;
    assert (r - {GUEST})[GUEST := Until(cfg)] == r;
    Quota.AddKey(r - {GUEST}, GUEST, Until(cfg));
    Quota.SubmapSize(Quota.LiveOnly(r, now), r - {GUEST});
  }

  /** And then with one more in it. */
  function Overbooked(cfg: Config): map<SessionId, Entry<Session>>
    requires cfg.maxSessions > 0
  {
    var (now, id) := (Later(cfg).now, SessionId(cfg.maxSessions));
    Later(cfg).sessions[id := Entry(Candidate(cfg, now, id), Leaves(cfg, now))]
  }

  lemma LastOneIs(cfg: Config, s: System)
    requires cfg.Valid() && !Capacity.Sheltered(cfg) && s.world == Later(cfg)
    ensures var t := Apply(cfg, s, FirstContact(SessionId(cfg.maxSessions), NONE_FAIL));
      && t.world.now == Later(cfg).now && t.world.sessions == Overbooked(cfg)
      && t.history == Then(s.history, Contacted(SessionId(cfg.maxSessions), Waiting, Later(cfg).now), false)
  {
    PlaceIsFree(cfg);
    NewcomerFits(cfg, Later(cfg), SessionId(cfg.maxSessions));
  }

  /** One more comes in. */
  lemma CrowdedFrom(cfg: Config, crowd: Run, h: History) returns (run: Run)
    requires cfg.Valid() && !Capacity.Sheltered(cfg) && EngineRun(cfg, crowd)
    requires After(cfg, crowd) == Joined(cfg, h, LastMoment(cfg), cfg.maxSessions - 1)
    ensures EngineRun(cfg, run)
    ensures After(cfg, run).world.now == Later(cfg).now && After(cfg, run).world.sessions == Overbooked(cfg)
    ensures After(cfg, run).history == Crowded(cfg, h)
  {
    var id := SessionId(cfg.maxSessions);
    Onward(cfg, crowd, Tick(1));
    MomentPasses(cfg, h);
    LastIdIsFresh(cfg, h);
    LastOneIs(cfg, After(cfg, Next(crowd, Tick(1))));
    run := Next(Next(crowd, Tick(1)), FirstContact(id, NONE_FAIL));
    Onward(cfg, Next(crowd, Tick(1)), FirstContact(id, NONE_FAIL));
  }

  function Crowded(cfg: Config, h: History): History
    requires cfg.maxSessions > 0
  {
    Then(Arrivals(h, LastMoment(cfg), cfg.maxSessions - 1),
         Contacted(SessionId(cfg.maxSessions), Waiting, Later(cfg).now), false)
  }

  lemma CrowdIsFaultFree(cfg: Config, h: History)
    requires cfg.maxSessions > 0 && FaultFree(h) && Capacity.Strikes(cfg, h) <= 1
    ensures FaultFree(Crowded(cfg, h)) && Capacity.Strikes(cfg, Crowded(cfg, h)) <= 1
  {
    ArrivalsAreFaultFree(cfg, h, LastMoment(cfg), cfg.maxSessions - 1);
  }

  lemma MomentPasses(cfg: Config, h: History)
    requires cfg.maxSessions > 0
    ensures var s := Joined(cfg, h, LastMoment(cfg), cfg.maxSessions - 1);
      Apply(cfg, s, Tick(1)) == s.(world := Later(cfg))
  {
  }

  lemma LastIdIsFresh(cfg: Config, h: History)
    requires cfg.maxSessions > 0
    ensures SessionId(cfg.maxSessions) !in Joined(cfg, h, LastMoment(cfg), cfg.maxSessions - 1).sessionIds
  {
    SeatsAre(cfg, LastMoment(cfg), cfg.maxSessions - 1);
  }

  lemma {:induction false} SeatedAreActive(cfg: Config, n: nat, id: SessionId)
    requires cfg.Valid() && !Capacity.Sheltered(cfg) && id in Seated(cfg, LastMoment(cfg), n)
    ensures var e := Seated(cfg, LastMoment(cfg), n)[id];
      e.value.state == Waiting && LastMoment(cfg) + 1 < e.expiresAt
  {
    if n > 0 && id != SessionId(n) {
      SeatedAreActive(cfg, n - 1, id);
    }
  }

  /**
   After an expulsion in the last moment, with the other places taken, one more comes in a moment later: the
   crowd counts one more than there are places, and no store call failed.
   */
  lemma ExpulsionOverbooks(cfg: Config) returns (run: Run)
    requires cfg.Valid() && !Capacity.Sheltered(cfg)
    ensures EngineRun(cfg, run) && FaultFree(After(cfg, run).history)
    ensures |Capacity.ActiveIds(After(cfg, run).world)| == cfg.maxSessions + 1
    ensures Capacity.Strikes(cfg, After(cfg, run).history) == 1
  {
    LastMomentFits(cfg);
    var expulsion, h := SomeExpulsion(cfg);
    var crowd := SomeCrowd(cfg, expulsion, h, LastMoment(cfg), cfg.maxSessions - 1);
    run := CrowdedFrom(cfg, crowd, h);
    CrowdIsFaultFree(cfg, h);
    AllAreActive(cfg, After(cfg, run).world);
    Capacity.CapacityHolds(cfg, run);
  }

  lemma AllAreActive(cfg: Config, w: World)
    requires cfg.Valid() && !Capacity.Sheltered(cfg) && w.now == Later(cfg).now && w.sessions == Overbooked(cfg)
    ensures |Capacity.ActiveIds(w)| == cfg.maxSessions + 1
  {
    var n := cfg.maxSessions;
    SeatsAre(cfg, LastMoment(cfg), n - 1);
    forall id | id in w.sessions ensures Capacity.Active(w, id) {
      if id != SessionId(n) {
        SeatedAreActive(cfg, n - 1, id);
      }
    }
    assert Capacity.ActiveIds(w) == w.sessions.Keys;
    Quota.AddKey(Later(cfg).sessions, SessionId(n), Entry(Candidate(cfg, w.now, SessionId(n)), Leaves(cfg, w.now)));
    assert |w.sessions.Keys| == |w.sessions|;
  }

  lemma VisitIsFaultFree(cfg: Config, late: nat)
    ensures FaultFree(Visit(cfg, late)) && Capacity.Strikes(cfg, Visit(cfg, late)) == 0
  {
    assert FaultFree(Arrival(cfg).past) && Capacity.Strikes(cfg, Arrival(cfg).past) == 0;
    assert FaultFree(Arrival(cfg)) && Capacity.Strikes(cfg, Arrival(cfg)) == 0;
  }

  lemma {:induction false} MissedIsFaultFree(cfg: Config, h: History, ch: ChallengeId, now: Time, n: nat)
    ensures FaultFree(Missed(h, ch, now, n)) == FaultFree(h)
    ensures Capacity.Strikes(cfg, Missed(h, ch, now, n)) == Capacity.Strikes(cfg, h)
  {
    if n > 0 {
      MissedIsFaultFree(cfg, h, ch, now, n - 1);
    }
  }

  lemma {:induction false} ArrivalsAreFaultFree(cfg: Config, h: History, now: Time, n: nat)
    ensures FaultFree(Arrivals(h, now, n)) == FaultFree(h)
    ensures Capacity.Strikes(cfg, Arrivals(h, now, n)) == Capacity.Strikes(cfg, h)
  {
    if n > 0 {
      ArrivalsAreFaultFree(cfg, h, now, n - 1);
    }
  }

  /** No run in which the store never fails has more active sessions than places. */
  ghost predicate NeverOverbooks(cfg: Config) {
    forall run | EngineRun(cfg, run) && FaultFree(After(cfg, run).history) ::
      |Capacity.ActiveIds(After(cfg, run).world)| <= cfg.maxSessions
  }

  /**
   The capacity is kept, expulsions included, exactly in the configurations without one of the frictions
   and in those whose absolute lifetime is no longer than a wait and the time to face challenges after it.
   */
  lemma CapacityIsKeptIffSheltered(cfg: Config)
    requires cfg.Valid()
    ensures NeverOverbooks(cfg) <==> Capacity.Sheltered(cfg)
  {
    if Capacity.Sheltered(cfg) {
      forall run | EngineRun(cfg, run) && FaultFree(After(cfg, run).history)
        ensures |Capacity.ActiveIds(After(cfg, run).world)| <= cfg.maxSessions
      {
        Capacity.ShelterPreventsStrikes(cfg, run);
        Capacity.CapacityHolds(cfg, run);
      }
    } else {
      var run := ExpulsionOverbooks(cfg);
      assert |Capacity.ActiveIds(After(cfg, run).world)| > cfg.maxSessions;
    }
  }

  // ---- a failed rotation breaks it too ---------------------------------------------------------

  /** When a session that is admitted at 0 expires. */
  function Closes(cfg: Config): Time {
    Capped(Deadline(cfg, 0), cfg.sessionTTL)
  }

  /** Without frictions, `n` sessions admitted at 0. */
  function Members(cfg: Config, n: nat): map<SessionId, Entry<Session>> {
    if n == 0 then map[]
    else Members(cfg, n - 1)[SessionId(n - 1) := Entry(Candidate(cfg, 0, SessionId(n - 1)), Closes(cfg))]
  }

  function Places(cfg: Config, n: nat): map<SessionId, Time> {
    if n == 0 then map[] else Places(cfg, n - 1)[SessionId(n - 1) := Closes(cfg)]
  }

  function Admissions(n: nat): History {
    if n == 0 then Start else Then(Admissions(n - 1), Contacted(SessionId(n - 1), Admitted, 0), false)
  }

  function House(cfg: Config, n: nat): System {
    System(World(0, Members(cfg, n), map[], Places(cfg, n)), Admissions(n),
           set id: SessionId | id in Members(cfg, n), {})
  }

  lemma {:induction false} MembersAre(cfg: Config, n: nat)
    ensures |Members(cfg, n)| == |Places(cfg, n)| == n
    ensures forall id | id in Members(cfg, n) ::
      id.serial < n && Members(cfg, n)[id] == Entry(Candidate(cfg, 0, id), Closes(cfg))
    ensures forall id | id in Places(cfg, n) :: id.serial < n
    ensures n > 0 ==> GUEST in Members(cfg, n)
    ensures Capacity.Strikes(cfg, Admissions(n)) == 0
  {
    if n > 0 {
      MembersAre(cfg, n - 1);
      var id := SessionId(n - 1);
      Quota.AddKey(Members(cfg, n - 1), id, Entry(Candidate(cfg, 0, id), Closes(cfg)));
      Quota.AddKey(Places(cfg, n - 1), id, Closes(cfg));
    }
  }

  lemma MemberFits(cfg: Config, n: nat)
    requires cfg.Valid() && !cfg.waitEnabled && !cfg.captchaEnabled && n < cfg.maxSessions
    ensures var o := Contact(cfg, House(cfg, n).world, SessionId(n), NONE_FAIL);
      o.world == House(cfg, n + 1).world && o.event == Contacted(SessionId(n), Admitted, 0)
  {
    MembersAre(cfg, n);
  }

  lemma MemberJoins(cfg: Config, n: nat)
    requires cfg.Valid() && !cfg.waitEnabled && !cfg.captchaEnabled && n < cfg.maxSessions
    ensures Fresh(House(cfg, n), FirstContact(SessionId(n), NONE_FAIL))
    ensures Apply(cfg, House(cfg, n), FirstContact(SessionId(n), NONE_FAIL)) == House(cfg, n + 1)
  {
    MembersAre(cfg, n);
    MemberFits(cfg, n);
    assert House(cfg, n + 1).sessionIds == House(cfg, n).sessionIds + {SessionId(n)};
  }

  lemma HouseIsEmpty(cfg: Config)
    ensures After(cfg, Init(0)) == House(cfg, 0)
  {
    assert House(cfg, 0).sessionIds == {};
  }

  lemma OneMoreMember(cfg: Config, fewer: Run, n: nat) returns (run: Run)
    requires cfg.Valid() && !cfg.waitEnabled && !cfg.captchaEnabled && n < cfg.maxSessions
    requires EngineRun(cfg, fewer) && After(cfg, fewer) == House(cfg, n)
    ensures EngineRun(cfg, run) && After(cfg, run) == House(cfg, n + 1)
  {
    run := Next(fewer, FirstContact(SessionId(n), NONE_FAIL));
    MemberJoins(cfg, n);
    Onward(cfg, fewer, FirstContact(SessionId(n), NONE_FAIL));
  }

  lemma {:induction false} SomeHouse(cfg: Config, n: nat) returns (run: Run)
    requires cfg.Valid() && !cfg.waitEnabled && !cfg.captchaEnabled && n <= cfg.maxSessions
    ensures EngineRun(cfg, run) && After(cfg, run) == House(cfg, n)
  {
    if n == 0 {
      run := Init(0);
      HouseIsEmpty(cfg);
    } else {
      var fewer := SomeHouse(cfg, n - 1);
      run := OneMoreMember(cfg, fewer, n - 1);
    }
  }

  const DELETIONS_FAIL: Faults := NONE_FAIL.(delete := true, undo := true)

  /** A rotation that can delete neither session leaves both. */
  lemma BothStay(cfg: Config, w: World, id: SessionId)
    requires cfg.Valid() && !cfg.waitEnabled && !cfg.captchaEnabled && w.now == 0
    requires GUEST in w.sessions && w.sessions[GUEST] == Entry(Candidate(cfg, 0, GUEST), Closes(cfg))
    ensures var o := RotateSession(cfg, w, GUEST, id, DELETIONS_FAIL);
      && o.event == Rotated(GUEST, id, 0) && o.world.now == 0
      && id in o.world.sessions && o.world.sessions == w.sessions[id := o.world.sessions[id]]
      && o.world.sessions[id].value.state == Admitted && o.world.sessions[id].expiresAt == Closes(cfg)
  {
  }

  lemma AllMembersAreActive(cfg: Config, n: nat, w: World)
    requires cfg.Valid() && !cfg.waitEnabled && !cfg.captchaEnabled && w.now == 0
    requires SessionId(n) in w.sessions && w.sessions == Members(cfg, n)[SessionId(n) := w.sessions[SessionId(n)]]
    requires w.sessions[SessionId(n)].value.state == Admitted && w.sessions[SessionId(n)].expiresAt == Closes(cfg)
    ensures |Capacity.ActiveIds(w)| == n + 1
  {
    MembersAre(cfg, n);
    assert Capacity.ActiveIds(w) == w.sessions.Keys;
    Quota.AddKey(Members(cfg, n), SessionId(n), w.sessions[SessionId(n)]);
    assert |w.sessions.Keys| == |w.sessions|;
  }

  /** In a full house a rotation whose two deletions fail makes one too many: the other kind of strike. */
  lemma FailedRotationOverbooks(cfg: Config) returns (run: Run)
    requires cfg.Valid() && !cfg.waitEnabled && !cfg.captchaEnabled
    ensures EngineRun(cfg, run)
    ensures |Capacity.ActiveIds(After(cfg, run).world)| == cfg.maxSessions + 1
    ensures Capacity.Strikes(cfg, After(cfg, run).history) == 1
  {
    var n := cfg.maxSessions;
    var house := SomeHouse(cfg, n);
    MembersAre(cfg, n);
    BothStay(cfg, House(cfg, n).world, SessionId(n));
    run := Next(house, RotateOne(GUEST, SessionId(n), DELETIONS_FAIL));
    Onward(cfg, house, RotateOne(GUEST, SessionId(n), DELETIONS_FAIL));
    AllMembersAreActive(cfg, n, After(cfg, run).world);
  }
}
