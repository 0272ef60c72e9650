/**
 Every engine operation is one of twelve moves. The handlers branch on faults, deadlines and settings;
 this module shows that, on the states engine runs reach, what they do to sessions and challenges is
 fully described by the event they report. The theorems about runs argue over moves.
 */
module Moves {
  import opened Basics
  import opened TtlMaps
  import opened Sessions
  import opened Protocol
  import opened Runs

  // ---- the states engine runs reach ---------------------------------------------------------

  /** One stored session, which may have expired. Its store deadline never outlives its own. */
  predicate SessionOK(cfg: Config, s: System, id: SessionId, e: Entry<Session>) {
    && e.value.id == id
    && id in s.sessionIds
    && e.value.firstSeen <= s.world.now
    && e.value.maxRenewals == cfg.maxRenewals
    && match e.value.state
       case Revoked => e.value.expiresAt.None?
       case Waiting => Dated(e) && e.value.challenge.None?
       case Admitted => Dated(e) && e.value.challenge.None?
       case ChallengeRequired =>
         && cfg.captchaEnabled && Dated(e)
         && (e.value.challenge.Some? ==> Linked(s, id, e, e.value.challenge.value))
       case _ => false
  }

  /** Store deadline, session deadline and absolute deadline are ordered. */
  predicate Dated(e: Entry<Session>) {
    && e.value.expiresAt.Some?
    && e.expiresAt <= e.value.expiresAt.value
    && (e.value.absoluteExpiresAt.Some? ==> e.value.expiresAt.value <= e.value.absoluteExpiresAt.value)
  }

  /** The session never outlives the challenge it refers to, and the challenge is its own. */
  predicate Linked(s: System, id: SessionId, e: Entry<Session>, ch: ChallengeId) {
    && ch in s.challengeIds
    && (ch in s.world.challenges ==>
          && s.world.challenges[ch].value.session == id
          && e.expiresAt <= s.world.challenges[ch].expiresAt)
  }

  predicate ChallengeOK(cfg: Config, s: System, ch: ChallengeId, e: Entry<Challenge>) {
    && e.value.id == ch
    && ch in s.challengeIds
    && e.expiresAt <= e.value.expiresAt
    && e.value.maxAttempts == cfg.maxAttempts
    && e.value.attempts < cfg.maxAttempts
  }

  ghost predicate WellFormed(cfg: Config, s: System) {
    && (forall id | id in s.world.sessions :: SessionOK(cfg, s, id, s.world.sessions[id]))
    && (forall ch | ch in s.world.challenges :: ChallengeOK(cfg, s, ch, s.world.challenges[ch]))
  }

  // ---- the moves ----------------------------------------------------------------------------

  function Deadline(cfg: Config, at: Time): Option<Time> {
    if cfg.absoluteLifetime > 0 then Some(at + cfg.absoluteLifetime) else None
  }

  function FirstState(cfg: Config): State {
    if cfg.waitEnabled then Waiting else if cfg.captchaEnabled then ChallengeRequired else Admitted
  }

  /** Only `id` is written, with a store deadline equal to its own. */
  predicate Stored(w: World, v: World, id: SessionId) {
    && id in v.sessions
    && v.sessions == w.sessions[id := v.sessions[id]]
    && Sound(v.sessions[id], id, w.now)
  }

  predicate Sound(e: Entry<Session>, id: SessionId, now: Time) {
    e.value.id == id && Dated(e) && e.value.expiresAt.value == e.expiresAt && now < e.expiresAt
  }

  predicate Before(w: World, id: SessionId, state: State) {
    IsLive(w.sessions, id, w.now) && w.sessions[id].value.state == state
  }

  /** The session is in CHALLENGE_REQUIRED, and its challenge is `ch` and can be answered. */
  predicate Answerable(w: World, id: SessionId, ch: ChallengeId) {
    && Before(w, id, ChallengeRequired)
    && w.sessions[id].value.challenge == Some(ch)
    && IsLive(w.challenges, ch, w.now)
  }

  predicate Move(cfg: Config, s: System, t: System) {
    && t.history.Then?
    && t.history.past == s.history
    && t.world.now == s.world.now
    && s.sessionIds <= t.sessionIds
    && s.challengeIds <= t.challengeIds
    && Moved(cfg, s, t, t.history.event, t.history.faulty)
  }

  predicate Moved(cfg: Config, s: System, t: System, event: Event, faulty: bool)
    requires t.history.Then? && t.history.faulty == faulty
  {
    match event
    case Quiet(_) => Untouched(s, t)
    case Served(id, at) =>
      Untouched(s, t) && Before(s.world, id, Admitted) && at == s.world.now && !s.world.sessions[id].value.IsExpired(at)
    case Contacted(id, state, at) =>
      FirstContactMade(cfg, s, t, id, at) && state == FirstState(cfg)
    case WaitPassed(id, at) => cfg.captchaEnabled && WaitDone(cfg, s, t, id, ChallengeRequired, at)
    case AdmittedAfterWait(id, at) => !cfg.captchaEnabled && WaitDone(cfg, s, t, id, Admitted, at)
    case Issued(id, ch, answer, at, again) =>
      ChallengeMade(cfg, s, t, id, ch, answer, again) && at == s.world.now && (again ==> faulty)
    case Guessed(id, ch, at, tally) =>
      && GuessMissed(cfg, s, t, id, ch, tally) && at == s.world.now
      && (tally.Uncounted? || (cfg.waitEnabled && tally.Dropped?) ==> faulty)
    case Expelled(id, ch, at) => SentBack(cfg, s, t, id, ch, at)
    case Solved(id, ch, answer, at) => AdmittedNow(cfg, s, t, id, ch, answer, at)
    case Rotated(id, successor, at) => Succession(cfg, s, t, id, successor, at)
    case Withdrawn(id, at) =>
      && t.world.challenges == s.world.challenges && at == s.world.now
      && IsLive(s.world.sessions, id, at)
      && t.world.sessions == s.world.sessions[id := Entry(
           s.world.sessions[id].value.(state := Revoked, expiresAt := None, lastSeenAt := at), at + REVOKED_RETENTION)]
    case Touched(id, ch, at, lost) => faulty && Disturbed(cfg, s, t, id, ch, lost)
  }

  predicate Untouched(s: System, t: System) {
    t.world.sessions == s.world.sessions && t.world.challenges == s.world.challenges
  }

  predicate FirstContactMade(cfg: Config, s: System, t: System, id: SessionId, at: Time) {
    && t.world.challenges == s.world.challenges && at == s.world.now
    && id !in s.sessionIds && id in t.sessionIds
    && Stored(s.world, t.world, id)
    && var next := t.world.sessions[id].value;
       && next == Session(id, FirstState(cfg), at, next.expiresAt, Deadline(cfg, at), 0, cfg.maxRenewals, at, at, None)
       && (next.state == Admitted ==> next.expiresAt.value <= at + cfg.sessionTTL)
  }

  predicate WaitDone(cfg: Config, s: System, t: System, id: SessionId, target: State, at: Time) {
    && t.world.challenges == s.world.challenges && at == s.world.now
    && Before(s.world, id, Waiting)
    && at - s.world.sessions[id].value.firstSeen >= cfg.waitTime
    && Stored(s.world, t.world, id)
    && var next := t.world.sessions[id].value;
       && next == s.world.sessions[id].value.(state := target, lastSeenAt := at, expiresAt := next.expiresAt)
       && (target == ChallengeRequired ==>
             next.expiresAt.value == Capped(next.absoluteExpiresAt, at + cfg.captchaTTL + CHALLENGE_GRACE))
       && (target == Admitted ==> next.expiresAt.value <= at + cfg.sessionTTL)
  }

  predicate ChallengeMade(cfg: Config, s: System, t: System, id: SessionId, ch: ChallengeId, answer: string,
                          again: bool)
  {
    var (w, v) := (s.world, t.world);
    && Before(w, id, ChallengeRequired)
    && ch !in s.challengeIds && ch in t.challengeIds
    && ch in v.challenges && id in v.sessions
    && v.challenges == w.challenges[ch := v.challenges[ch]]
    && ChallengeOK(cfg, t, ch, v.challenges[ch])
    && v.challenges[ch].value.session == id
    && v.challenges[ch].value.answer == answer
    && v.challenges[ch].value.attempts == 0
    && v.sessions == w.sessions[id := v.sessions[id]]
    && v.sessions[id].value == w.sessions[id].value.(challenge := Some(ch))
    && w.now < v.sessions[id].expiresAt <= v.challenges[ch].expiresAt
    && Dated(v.sessions[id])
    && (again <==> w.sessions[id].value.challenge.Some? && Answerable(w, id, w.sessions[id].value.challenge.value))
  }

  /** A wrong answer that leaves the session in CHALLENGE_REQUIRED. */
  predicate GuessMissed(cfg: Config, s: System, t: System, id: SessionId, ch: ChallengeId, tally: Tally) {
    var (w, v) := (s.world, t.world);
    && Answerable(w, id, ch)
    && (if v.sessions == w.sessions then true
        else
          && !cfg.waitEnabled && Stored(w, v, id)
          && v.sessions[id].value == w.sessions[id].value.(challenge := None))
    && match tally
       case Counted => w.challenges[ch].value.attempts + 1 < cfg.maxAttempts && v.challenges == CountedGuess(w, ch)
       case Uncounted => v.challenges == w.challenges
       case Dropped =>
         && w.challenges[ch].value.attempts + 1 == cfg.maxAttempts
         && (v.challenges == w.challenges - {ch} || (v.sessions != w.sessions && v.challenges == w.challenges))
  }

  predicate SentBack(cfg: Config, s: System, t: System, id: SessionId, ch: ChallengeId, at: Time) {
    var (w, v) := (s.world, t.world);
    && Answerable(w, id, ch) && at == w.now && cfg.waitEnabled
    && w.challenges[ch].value.attempts + 1 == cfg.maxAttempts
    && (v.challenges == w.challenges || v.challenges == w.challenges - {ch})
    && Stored(w, v, id)
    && v.sessions[id].value == w.sessions[id].value.(
         state := Waiting, challenge := None, firstSeen := at,
         expiresAt := Some(Capped(w.sessions[id].value.absoluteExpiresAt, at + cfg.waitTime + WAIT_GRACE)))
  }

  predicate AdmittedNow(cfg: Config, s: System, t: System, id: SessionId, ch: ChallengeId, answer: string, at: Time) {
    var (w, v) := (s.world, t.world);
    && Answerable(w, id, ch) && at == w.now
    && w.challenges[ch].value.answer == answer
    && v.challenges == w.challenges - {ch}
    && Stored(w, v, id)
    && v.sessions[id].value == w.sessions[id].value.(
         state := Admitted, challenge := None, lastSeenAt := at, expiresAt := v.sessions[id].value.expiresAt)
    && v.sessions[id].value.expiresAt.value <= at + cfg.sessionTTL
  }

  predicate Succession(cfg: Config, s: System, t: System, id: SessionId, successor: SessionId, at: Time) {
    var (w, v) := (s.world, t.world);
    && v.challenges == w.challenges && at == w.now
    && Before(w, id, Admitted) && !w.sessions[id].value.IsExpired(at)
    && successor !in s.sessionIds && successor in t.sessionIds
    && successor in v.sessions
    && Sound(v.sessions[successor], successor, at)
    && v.sessions[successor].value.expiresAt.value <= at + cfg.sessionTTL
    && var (was, next) := (w.sessions[id].value, v.sessions[successor].value);
       && (cfg.maxRenewals > 0 ==> was.renewalCount < cfg.maxRenewals)
       && next == was.(id := successor, expiresAt := next.expiresAt, renewalCount := was.renewalCount + 1,
                       lastSeenAt := at, challenge := None)
       && (|| v.sessions == w.sessions[successor := v.sessions[successor]] - {id}
           || (t.history.Then? && t.history.faulty && v.sessions == w.sessions[successor := v.sessions[successor]]))
  }

  /** A failure left a challenge dropped, restored or orphaned, and no session written. */
  predicate Disturbed(cfg: Config, s: System, t: System, id: SessionId, ch: ChallengeId, lost: bool) {
    var (w, v) := (s.world, t.world);
    && v.sessions == w.sessions
    && (ch in w.challenges ==> w.challenges[ch].value.session == id)
    && (ch in s.challengeIds || ch in t.challengeIds)
    && (ch !in w.challenges ==> ch !in s.challengeIds)
    && (ch in w.challenges && ch !in v.challenges ==> lost)
    && (ch !in v.challenges ==> v.challenges == w.challenges - {ch})
    && (ch in v.challenges ==>
          && v.challenges == w.challenges[ch := v.challenges[ch]]
          && ChallengeOK(cfg, t, ch, v.challenges[ch])
          && (ch in w.challenges ==>
                && v.challenges[ch].value == w.challenges[ch].value
                && w.challenges[ch].expiresAt <= v.challenges[ch].expiresAt))
  }

  /** The challenges after one more wrong answer to `ch`. */
  function CountedGuess(w: World, ch: ChallengeId): map<ChallengeId, Entry<Challenge>>
    requires ch in w.challenges
  {
    var c := w.challenges[ch].value;
    w.challenges[ch := Entry(c.(attempts := c.attempts + 1), c.expiresAt)]
  }

  // ---- the operations are moves -------------------------------------------------------------

  lemma ContactIsMove(cfg: Config, s: System, id: SessionId, f: Faults)
    requires cfg.Valid() && id !in s.sessionIds && id !in s.world.sessions
    ensures Move(cfg, s, Apply(cfg, s, FirstContact(id, f)))
  {
  }

  lemma PassWaitIsMove(cfg: Config, s: System, id: SessionId, f: Faults)
    requires cfg.Valid() && Before(s.world, id, Waiting)
    requires SessionOK(cfg, s, id, s.world.sessions[id])
    ensures Move(cfg, s, Record(s, PassWait(cfg, s.world, id, f), f))
  {
  }

  lemma RequestIsMove(cfg: Config, s: System, id: SessionId, f: Faults)
    requires cfg.Valid() && (id in s.world.sessions ==> SessionOK(cfg, s, id, s.world.sessions[id]))
    ensures Move(cfg, s, Apply(cfg, s, Request(id, f)))
  {
    if Before(s.world, id, Waiting) {
      PassWaitIsMove(cfg, s, id, f);
    }
  }

  lemma IssueIsMove(cfg: Config, s: System, id: SessionId, draft: ChallengeId, answer: string, f: Faults)
    requires cfg.Valid() && draft !in s.challengeIds && draft !in s.world.challenges
    requires Before(s.world, id, ChallengeRequired) && SessionOK(cfg, s, id, s.world.sessions[id])
    requires forall ch | ch in s.world.challenges :: ChallengeOK(cfg, s, ch, s.world.challenges[ch])
    ensures Move(cfg, s, Apply(cfg, s, IssueChallenge(id, draft, answer, f)))
  {
  }

  lemma RejectIsMove(cfg: Config, s: System, id: SessionId, ch: ChallengeId, f: Faults)
    requires cfg.Valid() && Answerable(s.world, id, ch)
    requires SessionOK(cfg, s, id, s.world.sessions[id]) && ChallengeOK(cfg, s, ch, s.world.challenges[ch])
    ensures var (v, c) := (s.world.sessions[id].value, s.world.challenges[ch].value);
      Move(cfg, s, Record(s, Reject(cfg, s.world, v, c, f), f))
  {
    var w := s.world;
    var (e, c) := (w.sessions[id], w.challenges[ch].value);
    var next := Expel(cfg, e.value, w.now);
    assert w.now + RemainingTTL(next, w.now, cfg.sessionTTL) == next.expiresAt.value;
  }

  lemma AcceptIsMove(cfg: Config, s: System, id: SessionId, ch: ChallengeId, f: Faults)
    requires cfg.Valid() && Answerable(s.world, id, ch)
    requires SessionOK(cfg, s, id, s.world.sessions[id]) && ChallengeOK(cfg, s, ch, s.world.challenges[ch])
    ensures var (v, c) := (s.world.sessions[id].value, s.world.challenges[ch].value);
      Move(cfg, s, Record(s, Accept(cfg, s.world, v, c, f), f))
  {
  }

  /** Without a challenge to answer, an answer changes nothing. */
  lemma ValidateNeedsChallenge(cfg: Config, w: World, id: SessionId, answer: string, f: Faults)
    requires !(Before(w, id, ChallengeRequired) && w.sessions[id].value.challenge.Some?
               && Answerable(w, id, w.sessions[id].value.challenge.value))
    ensures Validate(cfg, w, id, answer, f).world == w && Validate(cfg, w, id, answer, f).event == Quiet(id)
  {
  }

  lemma ValidateIsMove(cfg: Config, s: System, id: SessionId, answer: string, f: Faults)
    requires cfg.Valid() && WellFormed(cfg, s)
    ensures Move(cfg, s, Apply(cfg, s, ValidateChallenge(id, answer, f)))
  {
    var w := s.world;
    if Before(w, id, ChallengeRequired) && w.sessions[id].value.challenge.Some?
       && Answerable(w, id, w.sessions[id].value.challenge.value) {
      var ch := w.sessions[id].value.challenge.value;
      assert SessionOK(cfg, s, id, w.sessions[id]) && ChallengeOK(cfg, s, ch, w.challenges[ch]);
      AnswerIsMove(cfg, s, id, ch, answer, f);
    } else {
      ValidateNeedsChallenge(cfg, w, id, answer, f);
    }
  }

  /** With one, it is rejected or accepted, or some failure stops it first. */
  lemma ValidateCases(cfg: Config, w: World, id: SessionId, ch: ChallengeId, answer: string, f: Faults)
    requires Answerable(w, id, ch) && w.now < w.challenges[ch].value.expiresAt
    ensures var (o, v, c) := (Validate(cfg, w, id, answer, f), w.sessions[id].value, w.challenges[ch].value);
      || (o.world == w && o.event == Quiet(id))
      || (answer != c.answer && o == Reject(cfg, w, v, c, f))
      || (answer == c.answer && o == Accept(cfg, w, v, c, f))
  {
  }

  lemma AnswerIsMove(cfg: Config, s: System, id: SessionId, ch: ChallengeId, answer: string, f: Faults)
    requires cfg.Valid() && Answerable(s.world, id, ch)
    requires SessionOK(cfg, s, id, s.world.sessions[id]) && ChallengeOK(cfg, s, ch, s.world.challenges[ch])
    ensures Move(cfg, s, Record(s, Validate(cfg, s.world, id, answer, f), f))
  {
    RejectIsMove(cfg, s, id, ch, f);
    AcceptIsMove(cfg, s, id, ch, f);
    ValidateCases(cfg, s.world, id, ch, answer, f);
  }

  lemma RevokeIsMove(cfg: Config, s: System, id: SessionId, f: Faults)
    requires id in s.world.sessions ==> SessionOK(cfg, s, id, s.world.sessions[id])
    ensures Move(cfg, s, Apply(cfg, s, RevokeOne(id, f)))
  {
  }

  lemma RotateIsMove(cfg: Config, s: System, id: SessionId, successor: SessionId, f: Faults)
    requires cfg.Valid() && successor !in s.sessionIds && successor !in s.world.sessions
    requires Before(s.world, id, Admitted) && SessionOK(cfg, s, id, s.world.sessions[id])
    ensures Move(cfg, s, Apply(cfg, s, RotateOne(id, successor, f)))
  {
  }

  /** A challenge for a session in the wrong state changes nothing. */
  lemma IssueNeedsState(cfg: Config, w: World, id: SessionId, draft: ChallengeId, answer: string, f: Faults)
    requires !Before(w, id, ChallengeRequired)
    ensures Issue(cfg, w, id, draft, answer, f).world == w && Issue(cfg, w, id, draft, answer, f).event == Quiet(id)
  {
  }

  /** Neither does a rotation. */
  lemma RotationNeedsState(cfg: Config, w: World, id: SessionId, successor: SessionId, f: Faults)
    requires !Before(w, id, Admitted) && !Before(w, id, Rotating)
    ensures var o := RotateSession(cfg, w, id, successor, f); o.world == w && o.event == Quiet(id)
  {
  }

  predicate IsClockStep(step: Step) {
    step.Tick? || step.Sweep?
  }

  /** Every engine operation, on every state engine runs reach, is one of the moves. */
  lemma OperationIsMove(cfg: Config, s: System, step: Step)
    requires cfg.Valid() && WellFormed(cfg, s) && Fresh(s, step)
    requires !step.TransitionOne? && !IsClockStep(step)
    ensures Move(cfg, s, Apply(cfg, s, step))
  {
    match step
    case FirstContact(id, f) => ContactIsMove(cfg, s, id, f);
    case Request(id, f) => RequestIsMove(cfg, s, id, f);
    case IssueChallenge(id, draft, answer, f) =>
      if Before(s.world, id, ChallengeRequired) { IssueIsMove(cfg, s, id, draft, answer, f); }
      else { IssueNeedsState(cfg, s.world, id, draft, answer, f); }
    case ValidateChallenge(id, answer, f) => ValidateIsMove(cfg, s, id, answer, f);
    case RevokeOne(id, f) => RevokeIsMove(cfg, s, id, f);
    case RotateOne(id, successor, f) =>
      if Before(s.world, id, Admitted) { RotateIsMove(cfg, s, id, successor, f); }
      else { RotationNeedsState(cfg, s.world, id, successor, f); }
  }

  // ---- moves keep states well formed --------------------------------------------------------

  /** The challenge a session may refer to still belongs to it and still outlives it. */
  predicate Carried(s: System, t: System, ch: ChallengeId) {
    ch in t.world.challenges ==>
      && ch in s.world.challenges
      && t.world.challenges[ch].value.session == s.world.challenges[ch].value.session
      && s.world.challenges[ch].expiresAt <= t.world.challenges[ch].expiresAt
  }

  lemma MovesCarryChallenges(cfg: Config, s: System, t: System, ch: ChallengeId)
    requires WellFormed(cfg, s) && Move(cfg, s, t) && ch in s.challengeIds
    ensures Carried(s, t, ch)
  {
    if ch in s.world.challenges {
      assert ChallengeOK(cfg, s, ch, s.world.challenges[ch]);
    }
  }

  predicate Writes(event: Event, id: SessionId) {
    (event.id == id && !event.Quiet? && !event.Served? && !event.Touched?) || (event.Rotated? && event.successor == id)
  }

  lemma MovesLeaveOthers(cfg: Config, s: System, t: System, id: SessionId)
    requires Move(cfg, s, t) && !Writes(t.history.event, id)
    ensures id in t.world.sessions <==> id in s.world.sessions
    ensures id in s.world.sessions ==> t.world.sessions[id] == s.world.sessions[id]
  {
  }

  lemma WrittenSessionOK(cfg: Config, s: System, t: System, id: SessionId)
    requires cfg.Valid() && Move(cfg, s, t) && Writes(t.history.event, id) && id in t.world.sessions
    requires id in s.world.sessions ==> SessionOK(cfg, s, id, s.world.sessions[id])
    requires t.history.event.Rotated? ==>
      var source := t.history.event.id;
      source in s.world.sessions && SessionOK(cfg, s, source, s.world.sessions[source])
    requires id in s.world.sessions && s.world.sessions[id].value.challenge.Some? ==>
      Carried(s, t, s.world.sessions[id].value.challenge.value)
    ensures SessionOK(cfg, t, id, t.world.sessions[id])
  {
  }

  lemma MovesKeepSessions(cfg: Config, s: System, t: System, id: SessionId)
    requires cfg.Valid() && WellFormed(cfg, s) && Move(cfg, s, t) && id in t.world.sessions
    ensures SessionOK(cfg, t, id, t.world.sessions[id])
  {
    if id in s.world.sessions && s.world.sessions[id].value.challenge.Some?
       && s.world.sessions[id].value.challenge.value in s.challengeIds {
      MovesCarryChallenges(cfg, s, t, s.world.sessions[id].value.challenge.value);
    }
    if Writes(t.history.event, id) {
      WrittenSessionOK(cfg, s, t, id);
    } else {
      MovesLeaveOthers(cfg, s, t, id);
      assert SessionOK(cfg, s, id, s.world.sessions[id]);
    }
  }

  lemma MovesKeepChallenges(cfg: Config, s: System, t: System, ch: ChallengeId)
    requires cfg.Valid() && WellFormed(cfg, s) && Move(cfg, s, t) && ch in t.world.challenges
    ensures ChallengeOK(cfg, t, ch, t.world.challenges[ch])
  {
  }

  lemma MovesKeepWellFormed(cfg: Config, s: System, t: System)
    requires cfg.Valid() && WellFormed(cfg, s) && Move(cfg, s, t)
    ensures WellFormed(cfg, t)
  {
    forall id | id in t.world.sessions ensures SessionOK(cfg, t, id, t.world.sessions[id]) {
      MovesKeepSessions(cfg, s, t, id);
    }
    forall ch | ch in t.world.challenges ensures ChallengeOK(cfg, t, ch, t.world.challenges[ch]) {
      MovesKeepChallenges(cfg, s, t, ch);
    }
  }

  lemma {:induction false} RunsAreWellFormed(cfg: Config, run: Run)
    requires cfg.Valid() && EngineRun(cfg, run)
    ensures WellFormed(cfg, After(cfg, run))
  {
    match run
    case Init(_) =>
    case Next(before, step) =>
      RunsAreWellFormed(cfg, before);
      if !IsClockStep(step) {
        OperationIsMove(cfg, After(cfg, before), step);
        MovesKeepWellFormed(cfg, After(cfg, before), After(cfg, run));
      }
  }
}
