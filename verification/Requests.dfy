/**
 A whole request without credentials of its own (onionguard.go, `authorizeRequest`): find the session
 the cookie names or draw a new one, consult the rate limiter, decide admission, and show a challenge
 if one is due. The verdict of the rate limiter is an input; `Guards` adds the circuit breaker.
 */
module Requests {
  import opened Basics
  import opened TtlMaps
  import opened Sessions
  import opened Protocol
  import opened Runs
  import opened Moves
  import Patience
  import Rollback
  import Quota
  import Legality
  import Effects

  datatype Demand = Demand(
    cookie: Option<SessionId>,
    verdict: Verdict,       // of the rate limiter
    candidate: SessionId,   // random draws, in case they are needed
    draft: ChallengeId,
    answer: string,
    unread: bool,           // reading the cookie's session fails
    f: Faults,              // during the decision
    g: Faults               // during the issue
  )

  datatype Verdict = Passed | Exceeded | Unavailable

  datatype Decision =
    | Limited
    | Broken(error: Error)
    | Decided(id: SessionId, reply: Reply)
    | Challenged(id: SessionId, challenge: ChallengeId)

  predicate Drawn(s: System, d: Demand) {
    d.candidate !in s.sessionIds && d.draft !in s.challengeIds
  }

  /** The cookie names a session that the store has. */
  predicate Known(w: World, d: Demand) {
    d.cookie.Some? && Lookup(w.sessions, d.cookie.value, w.now).Some?
  }

  function Subject(w: World, d: Demand): SessionId {
    if Known(w, d) then d.cookie.value else d.candidate
  }

  /** The admission step; its snapshot of the session is the one already read. */
  function Admission(w: World, d: Demand): Step {
    if Known(w, d) then Request(d.cookie.value, d.f.(snapshot := false)) else FirstContact(d.candidate, d.f)
  }

  function AdmissionReply(cfg: Config, w: World, d: Demand): Reply {
    if Known(w, d) then Evaluate(cfg, w, d.cookie.value, d.f.(snapshot := false)).reply
    else Contact(cfg, w, d.candidate, d.f).reply
  }

  predicate ChallengeDue(cfg: Config, reply: Reply) {
    cfg.captchaEnabled && reply.Hold? && reply.state == ChallengeRequired
  }

  /** The run after the request, and what the caller is told. */
  function Authorize(cfg: Config, run: Run, d: Demand): (Run, Decision) {
    var w := After(cfg, run).world;
    if d.cookie.Some? && d.unread then (run, Broken(StoreFailure))
    else if d.verdict == Exceeded then (run, Limited)
    else if d.verdict == Unavailable then (run, Broken(StoreFailure))
    else
      var (id, reply, admitted) := (Subject(w, d), AdmissionReply(cfg, w, d), Next(run, Admission(w, d)));
      if reply.Fail? then (admitted, Broken(reply.error))
      else if !ChallengeDue(cfg, reply) then (admitted, Decided(id, reply))
      else
        var shown := Issue(cfg, After(cfg, admitted).world, id, d.draft, d.answer, d.g).reply;
        (Next(admitted, IssueChallenge(id, d.draft, d.answer, d.g)), Told(id, shown))
  }

  /** What the caller is told of an attempt to show a challenge. */
  function Told(id: SessionId, shown: Reply): Decision {
    if shown.Present? then Challenged(id, shown.challenge)
    else if shown.Fail? then Broken(shown.error)
    else Decided(id, shown)
  }

  /** A request takes the engine from run to run, so every theorem about runs covers requests. */
  lemma RequestsAreRuns(cfg: Config, run: Run, d: Demand)
    requires EngineRun(cfg, run) && Drawn(After(cfg, run), d)
    ensures EngineRun(cfg, Authorize(cfg, run, d).0)
  {
    var s := After(cfg, run);
    assert Apply(cfg, s, Admission(s.world, d)).challengeIds == s.challengeIds;
  }

  /**
   With both frictions in force a request is let through only for the session its cookie names, only
   while that is stored as ADMITTED, and only if the history shows that it was earned.
   */
  lemma OnlyTheEarnedPass(cfg: Config, run: Run, d: Demand, id: SessionId)
    requires cfg.Valid() && cfg.waitEnabled && cfg.captchaEnabled && EngineRun(cfg, run)
    requires Drawn(After(cfg, run), d) && Authorize(cfg, run, d).1 == Decided(id, Allow)
    ensures d.cookie == Some(id) && Before(After(cfg, run).world, id, Admitted)
    ensures Patience.Earned(cfg, After(cfg, run).history, id)
  {
    RunsAreWellFormed(cfg, run);
    AllowIsAdmissions(cfg, run, d, id);
    AllowNeedsAdmission(cfg, After(cfg, run), d);
    Patience.AdmissionIsEarned(cfg, run, id);
  }

  /** Only admission lets anyone through. */
  lemma AllowIsAdmissions(cfg: Config, run: Run, d: Demand, id: SessionId)
    requires Authorize(cfg, run, d).1 == Decided(id, Allow)
    ensures var w := After(cfg, run).world; AdmissionReply(cfg, w, d) == Allow && id == Subject(w, d)
  {
    var w := After(cfg, run).world;
    if ChallengeDue(cfg, AdmissionReply(cfg, w, d)) {
      IssueNeverAllows(cfg, After(cfg, Next(run, Admission(w, d))).world, Subject(w, d), d);
    }
  }

  lemma IssueNeverAllows(cfg: Config, w: World, id: SessionId, d: Demand)
    ensures !Told(id, Issue(cfg, w, id, d.draft, d.answer, d.g).reply).Decided?
  {
  }

  lemma AllowNeedsAdmission(cfg: Config, s: System, d: Demand)
    requires cfg.waitEnabled && cfg.captchaEnabled && WellFormed(cfg, s)
    requires AdmissionReply(cfg, s.world, d) == Allow
    ensures Known(s.world, d) && Before(s.world, d.cookie.value, Admitted)
  {
    if Known(s.world, d) {
      assert SessionOK(cfg, s, d.cookie.value, s.world.sessions[d.cookie.value]);
    }
  }

  /** A challenge that is presented can be answered there and then, and only by its own session. */
  lemma PresentedIsAnswerable(cfg: Config, s: System, id: SessionId, draft: ChallengeId, answer: string, f: Faults,
                              ch: ChallengeId)
    requires cfg.Valid() && WellFormed(cfg, s) && draft !in s.challengeIds
    requires Issue(cfg, s.world, id, draft, answer, f).reply == Present(ch)
    ensures var v := Issue(cfg, s.world, id, draft, answer, f).world;
      && Answerable(v, id, ch) && v.challenges[ch].value.session == id && v.challenges[ch].value.id == ch
      && v.now < v.challenges[ch].value.expiresAt && v.sessions[id].value.id == id && Dated(v.sessions[id])
  {
    var e := s.world.sessions[id];
    assert SessionOK(cfg, s, id, e);
    if ch in s.world.challenges {
      assert ChallengeOK(cfg, s, ch, s.world.challenges[ch]);
    }
  }

  /** So whoever is shown a challenge gets in by its answer at that instant, unless the store fails. */
  lemma WhatIsShownCanBeSolved(cfg: Config, run: Run, d: Demand, id: SessionId, ch: ChallengeId, f: Faults)
    requires cfg.Valid() && EngineRun(cfg, run) && Drawn(After(cfg, run), d)
    requires Authorize(cfg, run, d).1 == Challenged(id, ch)
    ensures var w := After(cfg, Authorize(cfg, run, d).0).world;
      && Answerable(w, id, ch)
      && w.challenges[ch].value.session == id
      && (!f.Any() && 0 < |w.challenges[ch].value.answer| <= cfg.captchaLength ==>
            && Validate(cfg, w, id, w.challenges[ch].value.answer, f).reply == Done
            && Before(Validate(cfg, w, id, w.challenges[ch].value.answer, f).world, id, Admitted))
  {
    var admitted := Next(run, Admission(After(cfg, run).world, d));
    RequestsAreRuns(cfg, run, d);
    ShownAtLast(cfg, run, d, id, ch);
    RunsAreWellFormed(cfg, admitted);
    ShownCanBeSolved(cfg, After(cfg, admitted), id, d, ch, f);
  }

  lemma ShownAtLast(cfg: Config, run: Run, d: Demand, id: SessionId, ch: ChallengeId)
    requires EngineRun(cfg, run) && Drawn(After(cfg, run), d) && Authorize(cfg, run, d).1 == Challenged(id, ch)
    ensures var admitted := Next(run, Admission(After(cfg, run).world, d));
      && EngineRun(cfg, admitted) && d.draft !in After(cfg, admitted).challengeIds
      && Authorize(cfg, run, d).0 == Next(admitted, IssueChallenge(id, d.draft, d.answer, d.g))
      && Issue(cfg, After(cfg, admitted).world, id, d.draft, d.answer, d.g).reply == Present(ch)
  {
  }

  lemma ShownCanBeSolved(cfg: Config, s: System, id: SessionId, d: Demand, ch: ChallengeId, f: Faults)
    requires cfg.Valid() && WellFormed(cfg, s) && d.draft !in s.challengeIds
    requires Issue(cfg, s.world, id, d.draft, d.answer, d.g).reply == Present(ch)
    ensures var w := Issue(cfg, s.world, id, d.draft, d.answer, d.g).world;
      && Answerable(w, id, ch)
      && w.challenges[ch].value.session == id
      && (!f.Any() && 0 < |w.challenges[ch].value.answer| <= cfg.captchaLength ==>
            && Validate(cfg, w, id, w.challenges[ch].value.answer, f).reply == Done
            && Before(Validate(cfg, w, id, w.challenges[ch].value.answer, f).world, id, Admitted))
  {
    PresentedIsAnswerable(cfg, s, id, d.draft, d.answer, d.g, ch);
    var w := Issue(cfg, s.world, id, d.draft, d.answer, d.g).world;
    if !f.Any() && 0 < |w.challenges[ch].value.answer| <= cfg.captchaLength {
      Rollback.FailedAdmissionIsUndone(cfg, w, id, ch, w.challenges[ch].value.answer, f);
    }
  }

  /** A request leaves every session but its own as it is. */
  lemma RequestsLeaveOthers(cfg: Config, run: Run, d: Demand, other: SessionId)
    requires cfg.Valid() && EngineRun(cfg, run) && Drawn(After(cfg, run), d)
    requires other != Subject(After(cfg, run).world, d)
    ensures var (w, v) := (After(cfg, run).world, After(cfg, Authorize(cfg, run, d).0).world);
      && (other in v.sessions <==> other in w.sessions)
      && (other in w.sessions ==> v.sessions[other] == w.sessions[other])
  {
    RunsAreWellFormed(cfg, run);
    AdmissionLeavesOthers(cfg, After(cfg, run), d, other);
    AuthorizeIs(cfg, run, d);
    StepsLeaveOthers(cfg, run, Authorize(cfg, run, d).0, d, other);
  }

  /** A request takes no step, or decides admission, or does that and then issues a challenge. */
  predicate Steps(cfg: Config, run: Run, end: Run, d: Demand) {
    var w := After(cfg, run).world;
    var admitted := Next(run, Admission(w, d));
    end == run || end == admitted || end == Next(admitted, IssueChallenge(Subject(w, d), d.draft, d.answer, d.g))
  }

  lemma AuthorizeIs(cfg: Config, run: Run, d: Demand)
    ensures Steps(cfg, run, Authorize(cfg, run, d).0, d)
  {
  }

  lemma StepsLeaveOthers(cfg: Config, run: Run, end: Run, d: Demand, other: SessionId)
    requires Steps(cfg, run, end, d) && other != Subject(After(cfg, run).world, d)
    requires var (s, t) := (After(cfg, run), Apply(cfg, After(cfg, run), Admission(After(cfg, run).world, d)));
      && (other in t.world.sessions <==> other in s.world.sessions)
      && (other in s.world.sessions ==> t.world.sessions[other] == s.world.sessions[other])
      && (Subject(s.world, d) in t.world.sessions ==>
            t.world.sessions[Subject(s.world, d)].value.id == Subject(s.world, d))
    ensures var (w, v) := (After(cfg, run).world, After(cfg, end).world);
      && (other in v.sessions <==> other in w.sessions)
      && (other in w.sessions ==> v.sessions[other] == w.sessions[other])
  {
    var w := After(cfg, run).world;
    var admitted := Next(run, Admission(w, d));
    if end != run && end != admitted {
      IssueLeavesOthers(cfg, After(cfg, admitted), Subject(w, d), d, other);
    }
  }

  lemma AdmissionLeavesOthers(cfg: Config, s: System, d: Demand, other: SessionId)
    requires cfg.Valid() && WellFormed(cfg, s) && Drawn(s, d) && other != Subject(s.world, d)
    ensures var t := Apply(cfg, s, Admission(s.world, d));
      && (other in t.world.sessions <==> other in s.world.sessions)
      && (other in s.world.sessions ==> t.world.sessions[other] == s.world.sessions[other])
      && (Subject(s.world, d) in t.world.sessions ==>
            t.world.sessions[Subject(s.world, d)].value.id == Subject(s.world, d))
  {
    var (step, id) := (Admission(s.world, d), Subject(s.world, d));
    OperationIsMove(cfg, s, step);
    AdmissionSpeaksOfSubject(cfg, s, d);
    MovesLeaveOthers(cfg, s, Apply(cfg, s, step), other);
    if id in Apply(cfg, s, step).world.sessions {
      MovesKeepSessions(cfg, s, Apply(cfg, s, step), id);
    }
  }

  lemma AdmissionSpeaksOfSubject(cfg: Config, s: System, d: Demand)
    ensures var event := Apply(cfg, s, Admission(s.world, d)).history.event;
      event.id == Subject(s.world, d) && !event.Rotated?
  {
  }

  lemma IssueLeavesOthers(cfg: Config, s: System, id: SessionId, d: Demand, other: SessionId)
    requires other != id && (id in s.world.sessions ==> s.world.sessions[id].value.id == id)
    ensures var v := Issue(cfg, s.world, id, d.draft, d.answer, d.g).world;
      && (other in v.sessions <==> other in s.world.sessions)
      && (other in s.world.sessions ==> v.sessions[other] == s.world.sessions[other])
  {
  }

  // ---- the order of the verdicts -----------------------------------------------------------------

  /**
   A request whose cookie could not be read, or that the rate limiter does not pass, changes nothing and
   gets nothing; it is told of its limit exactly if the limiter had its say and found it exceeded.
   */
  lemma LimiterDecides(cfg: Config, run: Run, d: Demand)
    ensures var ((end, decision), read) := (Authorize(cfg, run, d), d.cookie.None? || !d.unread);
      && (decision == Limited <==> read && d.verdict == Exceeded)
      && (!read || d.verdict != Passed ==>
            && end == run && !decision.Decided? && !decision.Challenged?
            && (decision != Limited ==> decision == Broken(StoreFailure)))
      && (read && d.verdict == Passed ==>
            end.Next? && (end.before == run || (end.before.Next? && end.before.before == run)))
  {
  }

  /** A request that passes is let through for a live, admitted session, even if the store fails from then on. */
  lemma TheAdmittedPass(cfg: Config, run: Run, d: Demand, id: SessionId)
    requires d.cookie == Some(id) && !d.unread && d.verdict == Passed
    requires var w := After(cfg, run).world;
      Before(w, id, Admitted) && !w.sessions[id].value.IsExpired(w.now)
    ensures Authorize(cfg, run, d).1 == Decided(id, Allow)
    ensures After(cfg, Authorize(cfg, run, d).0).world == After(cfg, run).world
  {
  }

  /** Whatever else admission says of a known session is passed on: an error, or its state and how long to wait. */
  lemma AdmissionIsPassedOn(cfg: Config, run: Run, d: Demand, id: SessionId)
    requires d.cookie == Some(id) && !d.unread && d.verdict == Passed && !d.f.snapshot
    requires var w := After(cfg, run).world; IsLive(w.sessions, id, w.now)
    ensures var (reply, decision) := (Evaluate(cfg, After(cfg, run).world, id, d.f).reply, Authorize(cfg, run, d).1);
      && (reply.Fail? ==> decision == Broken(reply.error))
      && (reply.Hold? && !(cfg.captchaEnabled && reply.state == ChallengeRequired) ==> decision == Decided(id, reply))
      && (reply == Allow ==> decision == Decided(id, Allow))
  {
    assert d.f.(snapshot := false) == d.f;
  }

  /** A session that faces a challenge is shown one, unless the store fails on the way. */
  lemma TheChallengedAreShown(cfg: Config, run: Run, d: Demand, id: SessionId)
    requires cfg.Valid() && EngineRun(cfg, run) && Drawn(After(cfg, run), d)
    requires d.cookie == Some(id) && !d.unread && d.verdict == Passed && !d.f.Any() && !d.g.Any()
    requires Before(After(cfg, run).world, id, ChallengeRequired)
    ensures Authorize(cfg, run, d).1.Challenged? && Authorize(cfg, run, d).1.id == id
  {
    RunsAreWellFormed(cfg, run);
    FacingIsHeld(cfg, After(cfg, run), d, id);
    IssueShows(cfg, After(cfg, Next(run, Admission(After(cfg, run).world, d))), id, d);
  }

  lemma FacingIsHeld(cfg: Config, s: System, d: Demand, id: SessionId)
    requires WellFormed(cfg, s) && d.cookie == Some(id) && Before(s.world, id, ChallengeRequired)
    ensures Known(s.world, d) && ChallengeDue(cfg, AdmissionReply(cfg, s.world, d))
    ensures Apply(cfg, s, Admission(s.world, d)).world == s.world
    ensures WellFormed(cfg, Apply(cfg, s, Admission(s.world, d)))
  {
    assert SessionOK(cfg, s, id, s.world.sessions[id]);
    var t := Apply(cfg, s, Admission(s.world, d));
    forall any | any in t.world.sessions ensures SessionOK(cfg, t, any, t.world.sessions[any]) {
      assert SessionOK(cfg, s, any, s.world.sessions[any]);
    }
    forall ch | ch in t.world.challenges ensures ChallengeOK(cfg, t, ch, t.world.challenges[ch]) {
      assert ChallengeOK(cfg, s, ch, s.world.challenges[ch]);
    }
  }

  lemma IssueShows(cfg: Config, s: System, id: SessionId, d: Demand)
    requires cfg.Valid() && WellFormed(cfg, s) && Before(s.world, id, ChallengeRequired) && !d.g.Any()
    ensures Issue(cfg, s.world, id, d.draft, d.answer, d.g).reply.Present?
  {
    assert SessionOK(cfg, s, id, s.world.sessions[id]);
  }

  /** A newcomer for whom there is room gets a session under the candidate id. */
  lemma NewcomersGetIn(cfg: Config, run: Run, d: Demand)
    requires cfg.Valid() && EngineRun(cfg, run) && Drawn(After(cfg, run), d)
    requires !Known(After(cfg, run).world, d) && (d.cookie.Some? ==> !d.unread) && d.verdict == Passed
    requires !d.f.Any() && !d.g.Any()
    requires var w := After(cfg, run).world; |Quota.LiveOnly(w.reservations, w.now)| < cfg.maxSessions
    ensures var decision := Authorize(cfg, run, d).1;
      if cfg.waitEnabled then decision == Decided(d.candidate, Hold(Waiting, cfg.waitTime))
      else if cfg.captchaEnabled then decision.Challenged? && decision.id == d.candidate
      else decision == Decided(d.candidate, Allow)
  {
    var s := After(cfg, run);
    NewcomerIsTold(cfg, run, d);
    if !cfg.waitEnabled && cfg.captchaEnabled {
      RunsAreWellFormed(cfg, Next(run, Admission(s.world, d)));
      IssueShows(cfg, After(cfg, Next(run, Admission(s.world, d))), d.candidate, d);
    }
  }

  lemma NewcomerIsTold(cfg: Config, run: Run, d: Demand)
    requires cfg.Valid() && EngineRun(cfg, run) && Drawn(After(cfg, run), d) && !Known(After(cfg, run).world, d)
    requires var w := After(cfg, run).world; |Quota.LiveOnly(w.reservations, w.now)| < cfg.maxSessions
    requires !d.f.Any()
    ensures AdmissionReply(cfg, After(cfg, run).world, d)
         == if cfg.waitEnabled then Hold(Waiting, cfg.waitTime)
            else if cfg.captchaEnabled then Hold(ChallengeRequired, 0) else Allow
    ensures EngineRun(cfg, Next(run, Admission(After(cfg, run).world, d)))
    ensures var v := After(cfg, Next(run, Admission(After(cfg, run).world, d))).world;
      !cfg.waitEnabled && cfg.captchaEnabled ==> Before(v, d.candidate, ChallengeRequired)
  {
    EngineRunsArePossible(cfg, run);
    Legality.ReservationsAreDrawn(cfg, run);
    Effects.NewcomerIs(cfg, After(cfg, run).world, d.candidate, d.f);
  }

  lemma {:induction false} EngineRunsArePossible(cfg: Config, run: Run)
    requires EngineRun(cfg, run)
    ensures Possible(cfg, run)
  {
    if run.Next? {
      EngineRunsArePossible(cfg, run.before);
    }
  }
}
