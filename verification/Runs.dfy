/**
 Runs of the engine: any sequence of its operations, of clock ticks and of janitor sweeps, on any ids,
 with any store calls failing. Session and challenge ids are random draws, so a step that creates one
 is given an id never drawn before.
 */
module Runs {
  import opened Basics
  import opened TtlMaps
  import opened Sessions
  import opened Protocol
  import Quota

  /** What happened, oldest first: one event per operation, and whether any store call failed in it. */
  datatype History = Start | Then(past: History, event: Event, faulty: bool)

  /** No store call ever failed. */
  predicate FaultFree(h: History) {
    h.Then? ==> FaultFree(h.past) && !h.faulty
  }

  datatype Step =
    | Tick(elapsed: nat)
    | Sweep
    | FirstContact(id: SessionId, f: Faults)
    | Request(id: SessionId, f: Faults)
    | IssueChallenge(id: SessionId, draft: ChallengeId, answer: string, f: Faults)
    | ValidateChallenge(id: SessionId, answer: string, f: Faults)
    | RevokeOne(id: SessionId, f: Faults)
    | RotateOne(id: SessionId, successor: SessionId, f: Faults)
    | TransitionOne(id: SessionId, on: Trigger, target: State, f: Faults)

  /** The world, its history, and the ids drawn so far. */
  datatype System = System(
    world: World,
    history: History,
    sessionIds: set<SessionId>,
    challengeIds: set<ChallengeId>
  )

  datatype Run = Init(at: Time) | Next(before: Run, step: Step)

  /** The janitor: expired entries and reservations go. */
  function Swept(w: World): World {
    w.(sessions := Purge(w.sessions, w.now),
       challenges := Purge(w.challenges, w.now),
       reservations := Quota.LiveOnly(w.reservations, w.now))
  }

  function Record(s: System, o: Outcome, f: Faults): System {
    s.(world := o.world, history := Then(s.history, o.event, f.Any()))
  }

  function Apply(cfg: Config, s: System, step: Step): System {
    match step
    case Tick(elapsed) => s.(world := s.world.(now := s.world.now + elapsed))
    case Sweep => s.(world := Swept(s.world))
    case FirstContact(id, f) =>
      Record(s, Contact(cfg, s.world, id, f), f).(sessionIds := s.sessionIds + {id})
    case Request(id, f) => Record(s, Evaluate(cfg, s.world, id, f), f)
    case IssueChallenge(id, draft, answer, f) =>
      Record(s, Issue(cfg, s.world, id, draft, answer, f), f).(challengeIds := s.challengeIds + {draft})
    case ValidateChallenge(id, answer, f) => Record(s, Validate(cfg, s.world, id, answer, f), f)
    case RevokeOne(id, f) => Record(s, RevokeSession(s.world, id, f), f)
    case RotateOne(id, successor, f) =>
      Record(s, RotateSession(cfg, s.world, id, successor, f), f).(sessionIds := s.sessionIds + {successor})
    case TransitionOne(id, on, target, f) => Record(s, Transition(cfg, s.world, id, on, target, f), f)
  }

  /** New ids are new. */
  predicate Fresh(s: System, step: Step) {
    && (step.FirstContact? ==> step.id !in s.sessionIds)
    && (step.RotateOne? ==> step.successor !in s.sessionIds)
    && (step.IssueChallenge? ==> step.draft !in s.challengeIds)
  }

  function After(cfg: Config, run: Run): System {
    match run
    case Init(at) => System(World(at, map[], map[], map[]), Start, {}, {})
    case Next(before, step) => Apply(cfg, After(cfg, before), step)
  }

  /** A run of every exported operation, `Transition` included. */
  predicate Possible(cfg: Config, run: Run) {
    match run
    case Init(_) => true
    case Next(before, step) => Possible(cfg, before) && Fresh(After(cfg, before), step)
  }

  /** A run of the operations that `Engine` itself offers. */
  predicate EngineRun(cfg: Config, run: Run) {
    match run
    case Init(_) => true
    case Next(before, step) =>
      EngineRun(cfg, before) && Fresh(After(cfg, before), step) && !step.TransitionOne?
  }
}
