/**
 The lifetime ceiling. Rotation neither moves a session's absolute deadline nor stretches its life
 beyond `maxRenewals + 1` session lifetimes counted from the first admission in its chain.
 */
module Lifetime {
  import opened Arithmetic
  import opened Basics
  import opened TtlMaps
  import opened Sessions
  import opened Protocol
  import opened Runs
  import opened Moves

  /** How many rotations lead to `id`. */
  function Depth(h: History, id: SessionId): nat {
    match h
    case Start => 0
    case Then(past, event, _) =>
      if event.Contacted? && event.id == id then 0
      else if event.Rotated? && event.successor == id then Depth(past, event.id) + 1
      else Depth(past, id)
  }

  /** The absolute deadline fixed at first contact of the session `id` descends from. */
  function ChainDeadline(cfg: Config, h: History, id: SessionId): Option<Time> {
    match h
    case Start => None
    case Then(past, event, _) =>
      if event.Contacted? && event.id == id then Deadline(cfg, event.at)
      else if event.Rotated? && event.successor == id then ChainDeadline(cfg, past, event.id)
      else ChainDeadline(cfg, past, id)
  }

  predicate Admits(event: Event, id: SessionId) {
    event.id == id && (event.Solved? || event.AdmittedAfterWait? || (event.Contacted? && event.state == Admitted))
  }

  /** When the chain of `id` was first admitted: the earliest such event counts. */
  function ChainAdmission(h: History, id: SessionId): Option<Time> {
    match h
    case Start => None
    case Then(past, event, _) =>
      if ChainAdmission(past, id).Some? then ChainAdmission(past, id)
      else if Admits(event, id) then Some(event.at)
      else if event.Rotated? && event.successor == id then ChainAdmission(past, event.id)
      else None
  }

  /** The latest moment a chain admitted at `admitted` can reach after `depth` rotations. */
  function Ceiling(cfg: Config, admitted: Time, depth: int): Time {
    admitted + (depth + 1) * cfg.sessionTTL
  }

  predicate LifetimeOK(cfg: Config, s: System, id: SessionId, e: Entry<Session>) {
    && e.value.absoluteExpiresAt == ChainDeadline(cfg, s.history, id)
    && e.value.renewalCount == Depth(s.history, id)
    && (cfg.maxRenewals > 0 ==> e.value.renewalCount <= cfg.maxRenewals)
    && (e.value.state == Admitted ==>
          && ChainAdmission(s.history, id).Some?
          && e.value.expiresAt.Some?
          && e.value.expiresAt.value <= Ceiling(cfg, ChainAdmission(s.history, id).value, e.value.renewalCount))
    && (e.value.state in {Waiting, ChallengeRequired} ==>
          e.value.renewalCount == 0 && ChainAdmission(s.history, id).None?)
  }

  ghost predicate AllBounded(cfg: Config, s: System) {
    && (forall id | id in s.world.sessions :: LifetimeOK(cfg, s, id, s.world.sessions[id]))
    && (forall id | ChainAdmission(s.history, id).Some? :: id in s.sessionIds)
  }

  lemma CeilingStep(cfg: Config, admitted: Time, depth: int, now: Time)
    requires now <= Ceiling(cfg, admitted, depth)
    ensures now + cfg.sessionTTL <= Ceiling(cfg, admitted, depth + 1)
  {
    assert (depth + 2) * cfg.sessionTTL == (depth + 1) * cfg.sessionTTL + cfg.sessionTTL;
  }

  lemma WrittenStaysBounded(cfg: Config, s: System, t: System, id: SessionId)
    requires cfg.Valid() && WellFormed(cfg, s) && Move(cfg, s, t) && AllBounded(cfg, s)
    requires Writes(t.history.event, id) && id in t.world.sessions
    ensures LifetimeOK(cfg, t, id, t.world.sessions[id])
  {
    var (subject, w) := (t.history.event.id, s.world);
    if subject in w.sessions {
      assert SessionOK(cfg, s, subject, w.sessions[subject]);
      assert LifetimeOK(cfg, s, subject, w.sessions[subject]);
      if t.history.event.Rotated? {
        CeilingStep(cfg, ChainAdmission(s.history, subject).value, w.sessions[subject].value.renewalCount, w.now);
      }
    }
  }

  lemma MovesKeepBounded(cfg: Config, s: System, t: System)
    requires cfg.Valid() && WellFormed(cfg, s) && Move(cfg, s, t) && AllBounded(cfg, s)
    ensures AllBounded(cfg, t)
  {
    forall id | id in t.world.sessions ensures LifetimeOK(cfg, t, id, t.world.sessions[id]) {
      if Writes(t.history.event, id) {
        WrittenStaysBounded(cfg, s, t, id);
      } else {
        MovesLeaveOthers(cfg, s, t, id);
      }
    }
    forall id | ChainAdmission(t.history, id).Some? ensures id in t.sessionIds {
      var subject := t.history.event.id;
      assert subject in s.world.sessions ==> SessionOK(cfg, s, subject, s.world.sessions[subject]);
    }
  }

  lemma {:induction false} RunsAreBounded(cfg: Config, run: Run)
    requires cfg.Valid() && EngineRun(cfg, run)
    ensures AllBounded(cfg, After(cfg, run))
  {
    match run
    case Init(_) =>
    case Next(before, step) =>
      RunsAreBounded(cfg, before);
      RunsAreWellFormed(cfg, before);
      if !IsClockStep(step) {
        OperationIsMove(cfg, After(cfg, before), step);
        MovesKeepBounded(cfg, After(cfg, before), After(cfg, run));
      }
  }

  /** No chain was admitted while it already had been. */
  predicate AdmittedOnce(h: History) {
    h.Then? ==> AdmittedOnce(h.past) && (Admits(h.event, h.event.id) ==> ChainAdmission(h.past, h.event.id).None?)
  }

  lemma {:induction false} NobodyIsAdmittedTwice(cfg: Config, run: Run)
    requires cfg.Valid() && EngineRun(cfg, run)
    ensures AdmittedOnce(After(cfg, run).history)
  {
    match run
    case Init(_) =>
    case Next(before, step) =>
      NobodyIsAdmittedTwice(cfg, before);
      RunsAreBounded(cfg, before);
      RunsAreWellFormed(cfg, before);
      if !IsClockStep(step) {
        OperationIsMove(cfg, After(cfg, before), step);
        MoveAdmitsOnce(cfg, After(cfg, before), After(cfg, run));
      }
  }

  lemma MoveAdmitsOnce(cfg: Config, s: System, t: System)
    requires AllBounded(cfg, s) && Move(cfg, s, t)
    ensures Admits(t.history.event, t.history.event.id) ==> ChainAdmission(s.history, t.history.event.id).None?
  {
    var id := t.history.event.id;
    if id in s.world.sessions {
      assert LifetimeOK(cfg, s, id, s.world.sessions[id]);
    }
  }

  /** A stored session keeps its chain's deadline and knows how many rotations led to it. */
  lemma ChainFactsHold(cfg: Config, run: Run, id: SessionId)
    requires cfg.Valid() && EngineRun(cfg, run) && id in After(cfg, run).world.sessions
    ensures var (end, v) := (After(cfg, run), After(cfg, run).world.sessions[id].value);
      && v.absoluteExpiresAt == ChainDeadline(cfg, end.history, id)
      && v.renewalCount == Depth(end.history, id)
      && (cfg.maxRenewals > 0 ==> v.renewalCount <= cfg.maxRenewals)
      && (v.expiresAt.Some? && v.absoluteExpiresAt.Some? ==> v.expiresAt.value <= v.absoluteExpiresAt.value)
  {
    RunsAreBounded(cfg, run);
    RunsAreWellFormed(cfg, run);
    var end := After(cfg, run);
    assert SessionOK(cfg, end, id, end.world.sessions[id]);
  }

  /** Every request served was served before the chain's absolute deadline and below its ceiling. */
  predicate ServedInTime(cfg: Config, h: History) {
    match h
    case Start => true
    case Then(past, event, _) =>
      && ServedInTime(cfg, past)
      && (event.Served? || Admits(event, event.id) ==>
            && (ChainDeadline(cfg, h, event.id).Some? ==> event.at < ChainDeadline(cfg, h, event.id).value)
            && ChainAdmission(h, event.id).Some?
            && (cfg.maxRenewals > 0 ==>
                  event.at < Ceiling(cfg, ChainAdmission(h, event.id).value, cfg.maxRenewals)))
  }

  lemma MoveServesInTime(cfg: Config, s: System, t: System)
    requires cfg.Valid() && WellFormed(cfg, s) && AllBounded(cfg, s) && Move(cfg, s, t)
    requires ServedInTime(cfg, s.history)
    ensures ServedInTime(cfg, t.history)
  {
    var (event, w) := (t.history.event, s.world);
    CeilingGrows(cfg, w.now, 0, cfg.maxRenewals);
    if event.id in w.sessions {
      var v := w.sessions[event.id].value;
      assert SessionOK(cfg, s, event.id, w.sessions[event.id]);
      assert LifetimeOK(cfg, s, event.id, w.sessions[event.id]);
      if event.Served? && cfg.maxRenewals > 0 {
        CeilingGrows(cfg, ChainAdmission(s.history, event.id).value, v.renewalCount, cfg.maxRenewals);
      }
    }
  }

  /** More renewals raise the ceiling, and it is above the admission. */
  lemma CeilingGrows(cfg: Config, admitted: Time, depth: nat, more: nat)
    requires cfg.sessionTTL > 0 && depth <= more
    ensures admitted < Ceiling(cfg, admitted, depth) <= Ceiling(cfg, admitted, more)
  {
    MulMono(cfg.sessionTTL, 1, depth + 1);
    MulMono(cfg.sessionTTL, depth + 1, more + 1);
  }

  /**
   In every run, no request of a chain is served at or after the chain's absolute deadline, nor at or
   after `maxRenewals + 1` session lifetimes past its first admission.
   */
  lemma {:induction false} LifetimeCeilingHolds(cfg: Config, run: Run)
    requires cfg.Valid() && EngineRun(cfg, run)
    ensures ServedInTime(cfg, After(cfg, run).history)
  {
    match run
    case Init(_) =>
    case Next(before, step) =>
      LifetimeCeilingHolds(cfg, before);
      RunsAreBounded(cfg, before);
      RunsAreWellFormed(cfg, before);
      if !IsClockStep(step) {
        OperationIsMove(cfg, After(cfg, before), step);
        MoveServesInTime(cfg, After(cfg, before), After(cfg, run));
      }
  }
}
