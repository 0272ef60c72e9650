/**
 Legal life cycles. Whatever is written to the store, by any exported operation and under any faults,
 keeps a session's state or follows the transition table; so REVOKED and EXPIRED are never left for an
 active state.
 */
module Legality {
  import opened Basics
  import opened TtlMaps
  import opened Sessions
  import opened Protocol
  import opened Runs

  ghost predicate CanBecome(from: State, to: State) {
    from == to || exists on :: IsLegalTransition(from, on, to)
  }

  /** The transition table read backwards: what leads to each state. */
  lemma WhatLeadsThere(from: State, on: Trigger, to: State)
    ensures IsLegalTransition(from, on, to) <==>
      match to
      case New => false
      case Waiting => (from == New && on == NewClient) || (from == ChallengeRequired && on == ChallengeFailed)
      case ChallengeRequired =>
        || (from == New && on == NewClient) || (from == Waiting && on in {WaitElapsed, NeedChallenge})
        || (from == ChallengeRequired && on == NeedChallenge)
      case Admitted =>
        || (from == New && on == NewClient) || (from == Waiting && on == WaitElapsed)
        || (from == ChallengeRequired && on == ChallengeSolved)
        || (from in {Admitted, Rotating} && on == Trigger.Rotate)
      case Rotating => from == Admitted && on == Trigger.Rotate
      case Expired => from !in {Expired, Revoked} && on == Expire
      case Revoked =>
        (from != Revoked && on == Trigger.Revoke) || (from == ChallengeRequired && on == ChallengeFailed)
  {
  }

  /** The write of `id` between `w` and `v`, if there was one, is legal. */
  ghost predicate LegalWrite(w: World, v: World, event: Event, id: SessionId) {
    id in v.sessions && (id in w.sessions ==> v.sessions[id] != w.sessions[id]) ==>
      var to := v.sessions[id].value.state;
      if IsLive(w.sessions, id, w.now) then CanBecome(w.sessions[id].value.state, to)
      else
        || (event.Contacted? && event.id == id && IsLegalTransition(New, NewClient, to))
        || (event.Rotated? && event.successor == id && IsLive(w.sessions, event.id, w.now)
              && IsLegalTransition(w.sessions[event.id].value.state, Rotate, to))
  }

  ghost predicate Keyed(s: System) {
    forall id | id in s.world.sessions :: s.world.sessions[id].value.id == id && id in s.sessionIds
  }

  lemma ContactIsLegal(cfg: Config, w: World, id: SessionId, f: Faults, any: SessionId)
    requires IsLive(w.sessions, id, w.now) ==> w.sessions[id].value.state == New
    ensures var o := Contact(cfg, w, id, f); LegalWrite(w, o.world, o.event, any)
  {
    assert IsLegalTransition(New, NewClient, Waiting);
    assert IsLegalTransition(New, NewClient, ChallengeRequired);
    assert IsLegalTransition(New, NewClient, Admitted);
  }

  lemma EvaluateIsLegal(cfg: Config, w: World, id: SessionId, f: Faults, any: SessionId)
    requires id in w.sessions ==> w.sessions[id].value.id == id
    ensures var o := Evaluate(cfg, w, id, f); LegalWrite(w, o.world, o.event, any)
  {
    assert IsLegalTransition(Waiting, WaitElapsed, ChallengeRequired);
    assert IsLegalTransition(Waiting, WaitElapsed, Admitted);
    if IsLive(w.sessions, id, w.now) && w.sessions[id].value.state == New {
      ContactIsLegal(cfg, w, id, f, any);
    }
  }

  lemma IssueIsLegal(cfg: Config, w: World, id: SessionId, draft: ChallengeId, answer: string, f: Faults,
                     any: SessionId)
    requires id in w.sessions ==> w.sessions[id].value.id == id
    ensures var o := Issue(cfg, w, id, draft, answer, f); LegalWrite(w, o.world, o.event, any)
  {
  }

  lemma RejectIsLegal(cfg: Config, w: World, s: Session, c: Challenge, f: Faults, any: SessionId)
    requires IsLive(w.sessions, s.id, w.now) && w.sessions[s.id].value == s && s.state == ChallengeRequired
    ensures var o := Reject(cfg, w, s, c, f); LegalWrite(w, o.world, o.event, any)
  {
    assert IsLegalTransition(ChallengeRequired, ChallengeFailed, Waiting);
  }

  lemma AcceptIsLegal(cfg: Config, w: World, s: Session, c: Challenge, f: Faults, any: SessionId)
    requires IsLive(w.sessions, s.id, w.now) && w.sessions[s.id].value == s && s.state == ChallengeRequired
    ensures var o := Accept(cfg, w, s, c, f); LegalWrite(w, o.world, o.event, any)
  {
    assert IsLegalTransition(ChallengeRequired, ChallengeSolved, Admitted);
  }

  lemma ValidateIsLegal(cfg: Config, w: World, id: SessionId, answer: string, f: Faults, any: SessionId)
    requires id in w.sessions ==> w.sessions[id].value.id == id
    ensures var o := Validate(cfg, w, id, answer, f); LegalWrite(w, o.world, o.event, any)
  {
    if IsLive(w.sessions, id, w.now) && w.sessions[id].value.state == ChallengeRequired
       && w.sessions[id].value.challenge.Some? && w.sessions[id].value.challenge.value in w.challenges {
      var (s, c) := (w.sessions[id].value, w.challenges[w.sessions[id].value.challenge.value].value);
      RejectIsLegal(cfg, w, s, c, f, any);
      AcceptIsLegal(cfg, w, s, c, f, any);
    }
  }

  lemma RevokeIsLegal(w: World, id: SessionId, f: Faults, any: SessionId)
    requires id in w.sessions ==> w.sessions[id].value.id == id
    ensures var o := RevokeSession(w, id, f); LegalWrite(w, o.world, o.event, any)
  {
    if id in w.sessions && w.sessions[id].value.state != Revoked {
      assert IsLegalTransition(w.sessions[id].value.state, Trigger.Revoke, Revoked);
    }
  }

  lemma RotateIsLegal(cfg: Config, w: World, id: SessionId, successor: SessionId, f: Faults, any: SessionId)
    requires successor !in w.sessions && (id in w.sessions ==> w.sessions[id].value.id == id)
    ensures var o := RotateSession(cfg, w, id, successor, f); LegalWrite(w, o.world, o.event, any)
  {
  }

  lemma TransitionIsLegal(cfg: Config, w: World, id: SessionId, on: Trigger, target: State, f: Faults, any: SessionId)
    requires id in w.sessions ==> w.sessions[id].value.id == id
    ensures var o := Transition(cfg, w, id, on, target, f); LegalWrite(w, o.world, o.event, any)
  {
  }

  /** Every write of every operation is legal, in every state and under every fault. */
  lemma WritesAreLegal(cfg: Config, s: System, step: Step, any: SessionId)
    requires Keyed(s) && Fresh(s, step) && !step.Tick? && !step.Sweep?
    ensures var t := Apply(cfg, s, step); LegalWrite(s.world, t.world, t.history.event, any)
  {
    match step
    case FirstContact(id, f) => ContactIsLegal(cfg, s.world, id, f, any);
    case Request(id, f) => EvaluateIsLegal(cfg, s.world, id, f, any);
    case IssueChallenge(id, draft, answer, f) => IssueIsLegal(cfg, s.world, id, draft, answer, f, any);
    case ValidateChallenge(id, answer, f) => ValidateIsLegal(cfg, s.world, id, answer, f, any);
    case RevokeOne(id, f) => RevokeIsLegal(s.world, id, f, any);
    case RotateOne(id, successor, f) => RotateIsLegal(cfg, s.world, id, successor, f, any);
    case TransitionOne(id, on, target, f) => TransitionIsLegal(cfg, s.world, id, on, target, f, any);
  }

  // ---- over runs ----------------------------------------------------------------------------

  predicate KeyedAt(w: World, id: SessionId) {
    id in w.sessions ==> w.sessions[id].value.id == id
  }

  /** `any` stays keyed, and is stored only if it was, or is the subject. */
  predicate KeepsKey(w: World, v: World, id: SessionId, any: SessionId) {
    any in v.sessions ==> (any in w.sessions || any == id) && v.sessions[any].value.id == any
  }

  lemma ContactKeepsKey(cfg: Config, w: World, id: SessionId, f: Faults, any: SessionId)
    requires KeyedAt(w, any)
    ensures KeepsKey(w, Contact(cfg, w, id, f).world, id, any)
  {
  }

  lemma RevokeKeepsKey(w: World, id: SessionId, f: Faults, any: SessionId)
    requires KeyedAt(w, id) && KeyedAt(w, any)
    ensures KeepsKey(w, RevokeSession(w, id, f).world, id, any)
  {
  }

  lemma RotateKeepsKey(cfg: Config, w: World, id: SessionId, successor: SessionId, f: Faults, any: SessionId)
    requires KeyedAt(w, any)
    ensures KeepsKey(w, RotateSession(cfg, w, id, successor, f).world, successor, any)
  {
  }

  lemma EvaluateKeepsKey(cfg: Config, w: World, id: SessionId, f: Faults, any: SessionId)
    requires KeyedAt(w, id) && KeyedAt(w, any)
    ensures KeepsKey(w, Evaluate(cfg, w, id, f).world, id, any)
  {
  }

  lemma IssueKeepsKey(cfg: Config, w: World, id: SessionId, draft: ChallengeId, answer: string, f: Faults,
                      any: SessionId)
    requires KeyedAt(w, id) && KeyedAt(w, any)
    ensures KeepsKey(w, Issue(cfg, w, id, draft, answer, f).world, id, any)
  {
  }

  lemma ValidateKeepsKey(cfg: Config, w: World, id: SessionId, answer: string, f: Faults, any: SessionId)
    requires KeyedAt(w, id) && KeyedAt(w, any)
    ensures KeepsKey(w, Validate(cfg, w, id, answer, f).world, id, any)
  {
  }

  lemma TransitionKeepsKey(cfg: Config, w: World, id: SessionId, on: Trigger, target: State, f: Faults, any: SessionId)
    requires KeyedAt(w, id) && KeyedAt(w, any)
    ensures KeepsKey(w, Transition(cfg, w, id, on, target, f).world, id, any)
  {
  }

  lemma StepKeepsKey(cfg: Config, s: System, step: Step, any: SessionId)
    requires Keyed(s) && any in Apply(cfg, s, step).world.sessions
    ensures KeyedAt(Apply(cfg, s, step).world, any) && any in Apply(cfg, s, step).sessionIds
  {
    match step
    case FirstContact(id, f) => ContactKeepsKey(cfg, s.world, id, f, any);
    case RevokeOne(id, f) => RevokeKeepsKey(s.world, id, f, any);
    case RotateOne(id, successor, f) => RotateKeepsKey(cfg, s.world, id, successor, f, any);
    case Request(id, f) => EvaluateKeepsKey(cfg, s.world, id, f, any);
    case IssueChallenge(id, draft, answer, f) => IssueKeepsKey(cfg, s.world, id, draft, answer, f, any);
    case ValidateChallenge(id, answer, f) => ValidateKeepsKey(cfg, s.world, id, answer, f, any);
    case TransitionOne(id, on, target, f) => TransitionKeepsKey(cfg, s.world, id, on, target, f, any);
    case _ =>
  }

  lemma StepKeepsKeyed(cfg: Config, s: System, step: Step)
    requires Keyed(s)
    ensures Keyed(Apply(cfg, s, step))
  {
    forall id | id in Apply(cfg, s, step).world.sessions
      ensures Apply(cfg, s, step).world.sessions[id].value.id == id && id in Apply(cfg, s, step).sessionIds
    {
      StepKeepsKey(cfg, s, step, id);
    }
  }

  lemma {:induction false} PossibleRunsAreKeyed(cfg: Config, run: Run)
    requires Possible(cfg, run)
    ensures Keyed(After(cfg, run))
  {
    if run.Next? {
      PossibleRunsAreKeyed(cfg, run.before);
      StepKeepsKeyed(cfg, After(cfg, run.before), run.step);
    }
  }

  /** `run` continues `earlier`. */
  predicate Continues(run: Run, earlier: Run) {
    run == earlier || (run.Next? && Continues(run.before, earlier))
  }

  /** Rotations recorded for `id`. */
  function Rotations(h: History, id: SessionId): nat {
    match h
    case Start => 0
    case Then(past, event, _) => Rotations(past, id) + if event.Rotated? && event.id == id then 1 else 0
  }

  /** A drawn id that is stored, if at all, in a state of `states`. */
  predicate Confined(s: System, id: SessionId, states: set<State>) {
    id in s.sessionIds && (id in s.world.sessions ==> s.world.sessions[id].value.state in states)
  }

  /** States no trigger leads out of, other than to one another, and from which no one is rotated. */
  ghost predicate Closed(states: set<State>) {
    && (forall from, on, to | from in states && IsLegalTransition(from, on, to) :: to in states)
    && New !in states && Admitted !in states && Rotating !in states
  }

  /** A rotation needs a live session that is admitted or rotating. */
  lemma RotationNeedsAdmission(cfg: Config, w: World, id: SessionId, successor: SessionId, f: Faults)
    requires id in w.sessions ==> w.sessions[id].value.id == id
    ensures var event := RotateSession(cfg, w, id, successor, f).event;
      event == Quiet(id)
      || (event == Rotated(id, successor, w.now) && IsLive(w.sessions, id, w.now)
            && w.sessions[id].value.state in {Admitted, Rotating})
  {
  }

  lemma StepIsConfined(cfg: Config, s: System, step: Step, id: SessionId, states: set<State>)
    requires Keyed(s) && Fresh(s, step) && Closed(states) && Confined(s, id, states)
    ensures Confined(Apply(cfg, s, step), id, states)
    ensures Rotations(Apply(cfg, s, step).history, id) == Rotations(s.history, id)
  {
    var t := Apply(cfg, s, step);
    if !step.Tick? && !step.Sweep? {
      WritesAreLegal(cfg, s, step, id);
      if id in t.world.sessions && !IsLive(s.world.sessions, id, s.world.now) {
        OnlyFreshIdsAppear(cfg, s, step, id);
      }
      if step.RotateOne? {
        RotationNeedsAdmission(cfg, s.world, step.id, step.successor, step.f);
      } else {
        OnlyRotationRotates(cfg, s, step);
      }
    }
  }

  /** Sessions appear only under ids drawn in that very step: an id never comes back. */
  lemma OnlyFreshIdsAppear(cfg: Config, s: System, step: Step, id: SessionId)
    requires Keyed(s) && Fresh(s, step) && id in s.sessionIds && id in Apply(cfg, s, step).world.sessions
    requires !step.Tick? && !step.Sweep? && !IsLive(s.world.sessions, id, s.world.now)
    ensures id in s.world.sessions && Apply(cfg, s, step).world.sessions[id] == s.world.sessions[id]
  {
    WritesAreLegal(cfg, s, step, id);
    if step.RotateOne? {
      RotationNeedsAdmission(cfg, s.world, step.id, step.successor, step.f);
    } else {
      OnlyRotationRotates(cfg, s, step);
      ContactedIsFresh(cfg, s, step);
    }
  }

  lemma ContactedIsFresh(cfg: Config, s: System, step: Step)
    requires !step.Tick? && !step.Sweep?
    ensures var event := Apply(cfg, s, step).history.event;
      event.Contacted? ==>
        (step.FirstContact? && event.id == step.id) || IsLive(s.world.sessions, event.id, s.world.now)
  {
  }

  lemma OnlyRotationRotates(cfg: Config, s: System, step: Step)
    requires !step.Tick? && !step.Sweep? && !step.RotateOne?
    ensures !Apply(cfg, s, step).history.event.Rotated?
  {
  }

  lemma {:induction false} StaysConfined(cfg: Config, run: Run, earlier: Run, id: SessionId, states: set<State>)
    requires Possible(cfg, run) && Continues(run, earlier) && Closed(states)
    requires Confined(After(cfg, earlier), id, states)
    ensures Confined(After(cfg, run), id, states)
    ensures Rotations(After(cfg, run).history, id) == Rotations(After(cfg, earlier).history, id)
  {
    if run != earlier {
      StaysConfined(cfg, run.before, earlier, id, states);
      PossibleRunsAreKeyed(cfg, run.before);
      StepIsConfined(cfg, After(cfg, run.before), run.step, id, states);
    }
  }

  lemma {:induction false} PrefixIsPossible(cfg: Config, run: Run, earlier: Run)
    requires Possible(cfg, run) && Continues(run, earlier)
    ensures Possible(cfg, earlier)
  {
    if run != earlier {
      PrefixIsPossible(cfg, run.before, earlier);
    }
  }

  /**
   A session once stored as REVOKED is REVOKED for as long as it is stored, and one once stored as
   EXPIRED is EXPIRED or REVOKED; neither is ever rotated into another session.
   */
  lemma EndIsFinal(cfg: Config, run: Run, earlier: Run, id: SessionId)
    requires Possible(cfg, run) && Continues(run, earlier)
    requires id in After(cfg, earlier).world.sessions && id in After(cfg, run).world.sessions
    ensures var (was, now) := (After(cfg, earlier).world.sessions[id].value.state,
                               After(cfg, run).world.sessions[id].value.state);
      && (was == Revoked ==> now == Revoked)
      && (was == Expired ==> now == Expired || now == Revoked)
      && (was == Revoked || was == Expired ==>
            Rotations(After(cfg, run).history, id) == Rotations(After(cfg, earlier).history, id))
  {
    PrefixIsPossible(cfg, run, earlier);
    PossibleRunsAreKeyed(cfg, earlier);
    var was := After(cfg, earlier).world.sessions[id].value.state;
    if was == Revoked {
      StaysConfined(cfg, run, earlier, id, {Revoked});
    } else if was == Expired {
      StaysConfined(cfg, run, earlier, id, {Expired, Revoked});
    }
  }

  // ---- reservations ----------------------------------------------------------------------------

  /** Only for ids that were drawn is capacity ever reserved. */
  ghost predicate Reserved(s: System) {
    forall id | id in s.world.reservations :: id in s.sessionIds
  }

  /** An operation on `id` reserves for nobody else. */
  predicate ReservesFor(w: World, v: World, id: SessionId, any: SessionId) {
    any in v.reservations ==> any in w.reservations || any == id
  }

  lemma ContactReserves(cfg: Config, w: World, id: SessionId, f: Faults, any: SessionId)
    ensures ReservesFor(w, Contact(cfg, w, id, f).world, id, any)
  {
  }

  lemma EvaluateReserves(cfg: Config, w: World, id: SessionId, f: Faults, any: SessionId)
    ensures ReservesFor(w, Evaluate(cfg, w, id, f).world, id, any)
  {
  }

  lemma ValidateReserves(cfg: Config, w: World, id: SessionId, answer: string, f: Faults, any: SessionId)
    requires KeyedAt(w, id)
    ensures ReservesFor(w, Validate(cfg, w, id, answer, f).world, id, any)
  {
  }

  lemma RotateReserves(cfg: Config, w: World, id: SessionId, successor: SessionId, f: Faults, any: SessionId)
    ensures ReservesFor(w, RotateSession(cfg, w, id, successor, f).world, successor, any)
  {
  }

  lemma TransitionReserves(cfg: Config, w: World, id: SessionId, on: Trigger, target: State, f: Faults, any: SessionId)
    requires KeyedAt(w, id)
    ensures ReservesFor(w, Transition(cfg, w, id, on, target, f).world, id, any)
  {
  }

  /** An operation on an id that was never drawn reserves nothing. */
  lemma UnknownReservesNothing(cfg: Config, w: World, id: SessionId, step: Step)
    requires id !in w.sessions && (step.Request? || step.ValidateChallenge? || step.TransitionOne?) && step.id == id
    ensures match step
            case Request(_, f) => Evaluate(cfg, w, id, f).world == w
            case ValidateChallenge(_, answer, f) => Validate(cfg, w, id, answer, f).world == w
            case TransitionOne(_, on, target, f) => Transition(cfg, w, id, on, target, f).world == w
            case _ => true
  {
  }

  lemma StepKeepsReserved(cfg: Config, s: System, step: Step, any: SessionId)
    requires Keyed(s) && Reserved(s) && any in Apply(cfg, s, step).world.reservations
    ensures any in Apply(cfg, s, step).sessionIds
  {
    match step
    case FirstContact(id, f) => ContactReserves(cfg, s.world, id, f, any);
    case RotateOne(id, successor, f) => RotateReserves(cfg, s.world, id, successor, f, any);
    case Request(id, f) =>
      if id in s.world.sessions { EvaluateReserves(cfg, s.world, id, f, any); }
      else { UnknownReservesNothing(cfg, s.world, id, step); }
    case ValidateChallenge(id, answer, f) =>
      if id in s.world.sessions { ValidateReserves(cfg, s.world, id, answer, f, any); }
      else { UnknownReservesNothing(cfg, s.world, id, step); }
    case TransitionOne(id, on, target, f) =>
      if id in s.world.sessions { TransitionReserves(cfg, s.world, id, on, target, f, any); }
      else { UnknownReservesNothing(cfg, s.world, id, step); }
    case _ =>
  }

  lemma {:induction false} ReservationsAreDrawn(cfg: Config, run: Run)
    requires Possible(cfg, run)
    ensures Reserved(After(cfg, run))
  {
    if run.Next? {
      ReservationsAreDrawn(cfg, run.before);
      PossibleRunsAreKeyed(cfg, run.before);
      forall any | any in After(cfg, run).world.reservations ensures any in After(cfg, run).sessionIds {
        StepKeepsReserved(cfg, After(cfg, run.before), run.step, any);
      }
    }
  }

  /** So a rotation moves a reservation to an id that has none, in every run. */
  lemma SuccessorsAreUnreserved(cfg: Config, run: Run, step: Step)
    requires Possible(cfg, run) && Fresh(After(cfg, run), step) && step.RotateOne?
    ensures step.successor !in After(cfg, run).world.reservations
  {
    ReservationsAreDrawn(cfg, run);
  }
}
