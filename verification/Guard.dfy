/**
 The engine behind its circuit breaker (onionguard.go). A request asks the breaker for permission; the four
 operations on a known session only look whether the circuit is open. All report how they ended.
 */
module Guards {
  import opened Basics
  import opened Sessions
  import opened Protocol
  import opened Runs
  import Requests
  import Breakers
  import Engines

  class GuardedEngine {
    const engine: Engines.Engine
    const breaker: Breakers.CircuitBreaker

    ghost predicate Valid()
      reads this, engine, breaker
    {
      engine.Valid() && breaker.Valid()
    }

    constructor (cfg: Config, settings: Breakers.Settings, now: Time)
      requires cfg.Valid()
      ensures Valid() && fresh(engine) && fresh(breaker) && engine.cfg == cfg
      ensures engine.run == Init(now) && breaker.trace == Breakers.Fresh(now)
    {
      engine := new Engines.Engine(cfg, now);
      breaker := new Breakers.CircuitBreaker(settings, now);
    }

    /** The trace after permission was asked for, or the state looked at, and after a report. */
    ghost function Asked(): Breakers.Trace
      reads this, engine, breaker
    {
      Breakers.Then(breaker.trace, Breakers.Ask, engine.now)
    }

    ghost function Looked(): Breakers.Trace
      reads this, engine, breaker
    {
      Breakers.Then(breaker.trace, Breakers.Look, engine.now)
    }

    ghost predicate Shut(t: Breakers.Trace)
      reads this
    {
      Breakers.After(breaker.cfg, t).circuit == Breakers.Open
    }

    /**
     `None` if the breaker refuses, and then nothing happens. `infra` tells whether a store failure, if there
     is one, is of the kind that counts for the breaker.
     */
    method AuthorizeRequest(d: Requests.Demand, infra: bool) returns (decision: Option<Requests.Decision>)
      requires Valid() && Requests.Drawn(After(engine.cfg, engine.run), d)
      modifies engine, breaker
      ensures Valid()
      ensures decision.None? <==> !Breakers.Granted(breaker.cfg, old(Asked()))
      ensures decision.None? ==> engine.run == old(engine.run) && breaker.trace == old(Asked())
      ensures decision.Some? ==>
        && (engine.run, decision.value) == Requests.Authorize(engine.cfg, old(engine.run), d)
        && breaker.trace == Breakers.Then(old(Asked()),
             Breakers.Report(infra && decision.value == Requests.Broken(StoreFailure)), old(engine.now))
    {
      var now := engine.now;
      var ok := breaker.Allow(now);
      if !ok {
        return None;
      }
      var result := engine.AuthorizeRequest(d);
      breaker.Done(infra && result == Requests.Broken(StoreFailure), now);
      return Some(result);
    }

    /** `None` if the circuit is open. A half-open one lets these operations through, probe in flight or not. */
    method IssueChallenge(id: SessionId, draft: ChallengeId, answer: string, f: Faults, infra: bool)
      returns (reply: Option<Reply>)
      requires Valid() && draft !in After(engine.cfg, engine.run).challengeIds
      modifies engine, breaker
      ensures Valid() && (reply.None? <==> Shut(old(Looked())))
      ensures reply.None? ==> engine.run == old(engine.run) && breaker.trace == old(Looked())
      ensures reply.Some? ==>
        && engine.run == Next(old(engine.run), Step.IssueChallenge(id, draft, answer, f))
        && reply.value == Protocol.Issue(engine.cfg, old(engine.State()), id, draft, answer, f).reply
        && breaker.trace == Breakers.Then(old(Looked()),
             Breakers.Report(infra && reply.value == Fail(StoreFailure)), old(engine.now))
    {
      var now := engine.now;
      var c := breaker.Query(now);
      if c == Breakers.Open {
        return None;
      }
      var result := engine.IssueChallenge(id, draft, answer, f);
      breaker.Done(infra && result == Fail(StoreFailure), now);
      return Some(result);
    }

    method ValidateChallenge(id: SessionId, answer: string, f: Faults, infra: bool) returns (reply: Option<Reply>)
      requires Valid()
      modifies engine, breaker
      ensures Valid() && (reply.None? <==> Shut(old(Looked())))
      ensures reply.None? ==> engine.run == old(engine.run) && breaker.trace == old(Looked())
      ensures reply.Some? ==>
        && engine.run == Next(old(engine.run), Step.ValidateChallenge(id, answer, f))
        && reply.value == Protocol.Validate(engine.cfg, old(engine.State()), id, answer, f).reply
        && breaker.trace == Breakers.Then(old(Looked()),
             Breakers.Report(infra && reply.value == Fail(StoreFailure)), old(engine.now))
    {
      var now := engine.now;
      var c := breaker.Query(now);
      if c == Breakers.Open {
        return None;
      }
      var result := engine.ValidateChallenge(id, answer, f);
      breaker.Done(infra && result == Fail(StoreFailure), now);
      return Some(result);
    }

    method RevokeSession(id: SessionId, f: Faults, infra: bool) returns (reply: Option<Reply>)
      requires Valid()
      modifies engine, breaker
      ensures Valid() && (reply.None? <==> Shut(old(Looked())))
      ensures reply.None? ==> engine.run == old(engine.run) && breaker.trace == old(Looked())
      ensures reply.Some? ==>
        && engine.run == Next(old(engine.run), RevokeOne(id, f))
        && reply.value == Protocol.RevokeSession(old(engine.State()), id, f).reply
        && breaker.trace == Breakers.Then(old(Looked()),
             Breakers.Report(infra && reply.value == Fail(StoreFailure)), old(engine.now))
    {
      var now := engine.now;
      var c := breaker.Query(now);
      if c == Breakers.Open {
        return None;
      }
      var result := engine.RevokeSession(id, f);
      breaker.Done(infra && result == Fail(StoreFailure), now);
      return Some(result);
    }

    method RotateSession(id: SessionId, successor: SessionId, f: Faults, infra: bool) returns (reply: Option<Reply>)
      requires Valid() && successor !in After(engine.cfg, engine.run).sessionIds
      modifies engine, breaker
      ensures Valid() && (reply.None? <==> Shut(old(Looked())))
      ensures reply.None? ==> engine.run == old(engine.run) && breaker.trace == old(Looked())
      ensures reply.Some? ==>
        && engine.run == Next(old(engine.run), RotateOne(id, successor, f))
        && reply.value == Protocol.RotateSession(engine.cfg, old(engine.State()), id, successor, f).reply
        && breaker.trace == Breakers.Then(old(Looked()),
             Breakers.Report(infra && reply.value == Fail(StoreFailure)), old(engine.now))
    {
      var now := engine.now;
      var c := breaker.Query(now);
      if c == Breakers.Open {
        return None;
      }
      var result := engine.RotateSession(id, successor, f);
      breaker.Done(infra && result == Fail(StoreFailure), now);
      return Some(result);
    }
  }
}
