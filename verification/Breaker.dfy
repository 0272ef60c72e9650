/**
 The circuit breaker (circuit_breaker.go): closed, open, half-open. Operations report late and in any
 order, and some report without having asked; the theorems hold for every sequence of calls.
 */
module Breakers {
  import opened Basics
  import opened Arithmetic

  datatype Circuit = Closed | Open | HalfOpen

  datatype Settings = Settings(enabled: bool, threshold: int, coolDown: Time) {
    predicate Valid() {
      threshold > 0 && coolDown > 0
    }
  }

  datatype Breaker = Breaker(circuit: Circuit, failures: nat, since: Time, probing: bool)

  // ---- one call ------------------------------------------------------------------------------

  /** An open circuit whose cool-down is over is half-open. */
  function Current(cfg: Settings, b: Breaker, now: Time): Breaker {
    if b.circuit == Open && now - b.since >= cfg.coolDown then Breaker(HalfOpen, b.failures, now, false) else b
  }

  /** Ask to proceed: always if closed, once if half-open, never if open. */
  function Allowed(cfg: Settings, b: Breaker, now: Time): (Breaker, bool) {
    if !cfg.enabled then (b, true)
    else
      var c := Current(cfg, b, now);
      match c.circuit
      case Closed => (c, true)
      case Open => (c, false)
      case HalfOpen => (c.(probing := true), !c.probing)
  }

  /** Learn how an operation ended. */
  function Reported(cfg: Settings, b: Breaker, now: Time, infra: bool): Breaker {
    if !cfg.enabled then b
    else match (b.circuit, infra)
      case (Closed, false) => b.(failures := 0, probing := false)
      case (HalfOpen, false) => Breaker(Closed, 0, now, false)
      case (Open, false) => b.(probing := false)
      case (Closed, true) =>
        if b.failures + 1 >= cfg.threshold then Breaker(Open, b.failures + 1, now, false)
        else b.(failures := b.failures + 1)
      case (HalfOpen, true) => Breaker(Open, b.failures, now, false)
      case (Open, true) => b
  }

  // ---- all calls -----------------------------------------------------------------------------

  datatype Call = Ask | Report(infra: bool) | Look

  /** The calls a breaker has received, latest last, each with the time it came. */
  datatype Trace = Fresh(at: Time) | Then(before: Trace, call: Call, at: Time)

  function After(cfg: Settings, t: Trace): Breaker {
    match t
    case Fresh(at) => Breaker(Closed, 0, at, false)
    case Then(before, call, at) =>
      Called(cfg, After(cfg, before), call, at)
  }

  function Called(cfg: Settings, b: Breaker, call: Call, at: Time): Breaker {
    match call
    case Ask => Allowed(cfg, b, at).0
    case Report(infra) => Reported(cfg, b, at, infra)
    case Look => Current(cfg, b, at)
  }

  /** The last call was allowed to proceed. */
  predicate Granted(cfg: Settings, t: Trace) {
    t.Then? && t.call.Ask? && Allowed(cfg, After(cfg, t.before), t.at).1
  }

  function Grants(cfg: Settings, t: Trace): nat {
    match t
    case Fresh(_) => 0
    case Then(before, _, _) => Grants(cfg, before) + if Granted(cfg, t) then 1 else 0
  }

  // ---- the circuit is a function of the reports ------------------------------------------------

  datatype Reports = NoReports | And(earlier: Reports, infra: bool)

  /** Infrastructure errors in a row at the end. */
  function Trailing(r: Reports): nat {
    match r
    case NoReports => 0
    case And(earlier, infra) => if infra then Trailing(earlier) + 1 else 0
  }

  /** The longest row of them anywhere. */
  function Longest(r: Reports): nat {
    match r
    case NoReports => 0
    case And(earlier, _) => if Trailing(r) > Longest(earlier) then Trailing(r) else Longest(earlier)
  }

  /** The reports since the breaker last closed. */
  function SinceClosing(cfg: Settings, t: Trace): Reports {
    match t
    case Fresh(_) => NoReports
    case Then(before, call, _) => Heard(After(cfg, before), SinceClosing(cfg, before), call)
  }

  function Heard(b: Breaker, r: Reports, call: Call): Reports {
    if !call.Report? then r
    else if b.circuit == HalfOpen && !call.infra then NoReports
    else And(r, call.infra)
  }

  /** How the circuit depends on what was reported since it last closed. */
  predicate Refines(cfg: Settings, b: Breaker, r: Reports) {
    && (b.circuit == Closed <==> Longest(r) < cfg.threshold)
    && b.failures == (if b.circuit == Closed then Trailing(r) else cfg.threshold)
    && (b.probing ==> b.circuit == HalfOpen)
  }

  lemma CallKeepsRefining(cfg: Settings, b: Breaker, r: Reports, call: Call, at: Time)
    requires cfg.Valid() && cfg.enabled && Refines(cfg, b, r)
    ensures Refines(cfg, Called(cfg, b, call, at), Heard(b, r, call))
  {
    TrailingIsARow(r);
  }

  /**
   The circuit is closed exactly while no `threshold` infrastructure errors have been reported in a row
   since it last closed; then `failures` counts the row in progress, and otherwise it stays at the
   threshold. A probe is in flight only in a half-open circuit.
   */
  lemma {:induction false} CircuitRefinesReports(cfg: Settings, t: Trace)
    requires cfg.Valid() && cfg.enabled
    ensures var (b, r) := (After(cfg, t), SinceClosing(cfg, t));
      && (b.circuit == Closed <==> Longest(r) < cfg.threshold)
      && b.failures == (if b.circuit == Closed then Trailing(r) else cfg.threshold)
      && (b.probing ==> b.circuit == HalfOpen)
  {
    if t.Then? {
      CircuitRefinesReports(cfg, t.before);
      CallKeepsRefining(cfg, After(cfg, t.before), SinceClosing(cfg, t.before), t.call, t.at);
    }
  }

  lemma {:induction false} TrailingIsARow(r: Reports)
    ensures Trailing(r) <= Longest(r)
  {
    if r.And? {
      TrailingIsARow(r.earlier);
    }
  }

  /**
   The row at the very end does not decide: a success reported late, while the circuit is open, ends the
   row and leaves the circuit open.
   */
  lemma LateSuccessDoesNotClose(cfg: Settings, at: Time)
    requires cfg == Settings(true, 1, cfg.coolDown) && cfg.Valid()
    ensures var t := Then(Then(Fresh(at), Report(true), at), Report(false), at);
      After(cfg, t).circuit == Open && Trailing(SinceClosing(cfg, t)) == 0
  {
    var t1 := Then(Fresh(at), Report(true), at);
    assert After(cfg, t1) == Breaker(Open, 1, at, false);
  }

  // ---- one probe per half-open episode ---------------------------------------------------------

  /** Calls allowed since the circuit last became half-open. */
  function Probes(cfg: Settings, t: Trace): nat {
    if t.Fresh? || After(cfg, t).circuit != HalfOpen then 0
    else Probes(cfg, t.before) + if Granted(cfg, t) then 1 else 0
  }

  /** Whatever is reported when, a half-open circuit lets one operation through. */
  lemma {:induction false} OneProbePerEpisode(cfg: Settings, t: Trace)
    requires cfg.Valid() && cfg.enabled
    ensures Probes(cfg, t) <= 1
    ensures After(cfg, t).circuit == HalfOpen ==> (Probes(cfg, t) == 1 <==> After(cfg, t).probing)
  {
    if t.Then? {
      OneProbePerEpisode(cfg, t.before);
      assert After(cfg, t.before).circuit != HalfOpen ==> Probes(cfg, t.before) == 0;
    }
  }

  // ---- who is let through ----------------------------------------------------------------------

  /** When the circuit last opened. */
  function LastOpening(cfg: Settings, t: Trace): Option<Time> {
    match t
    case Fresh(_) => None
    case Then(before, _, at) =>
      if After(cfg, t).circuit == Open && After(cfg, before).circuit != Open then Some(at)
      else LastOpening(cfg, before)
  }

  lemma {:induction false} OpenSinceLastOpening(cfg: Settings, t: Trace)
    ensures After(cfg, t).circuit == Open ==> LastOpening(cfg, t) == Some(After(cfg, t).since)
  {
    if t.Then? {
      OpenSinceLastOpening(cfg, t.before);
    }
  }

  /** A disabled breaker lets everyone through, and learns nothing. */
  lemma {:induction false} DisabledLetsAllThrough(cfg: Settings, t: Trace, at: Time)
    requires !cfg.enabled
    ensures After(cfg, t).circuit == Closed && After(cfg, t).failures == 0
    ensures Granted(cfg, Then(t, Ask, at))
  {
    if t.Then? {
      DisabledLetsAllThrough(cfg, t.before, at);
    }
  }

  /**
   An enabled one lets a call through exactly if no `threshold` infrastructure errors came in a row since it
   last closed, or its last opening is a cool-down ago, or it is half-open and has let nobody through yet.
   What it lets through while not closed is a probe.
   */
  lemma GrantedIff(cfg: Settings, t: Trace, at: Time)
    requires cfg.Valid() && cfg.enabled
    ensures var (now, asked) := (After(cfg, t).circuit, Then(t, Ask, at));
      var closed := Longest(SinceClosing(cfg, t)) < cfg.threshold;
      && (Granted(cfg, asked) <==>
            || closed
            || (now == Open && LastOpening(cfg, t).Some? && at - LastOpening(cfg, t).value >= cfg.coolDown)
            || (now == HalfOpen && Probes(cfg, t) == 0))
      && (Granted(cfg, asked) && !closed ==> After(cfg, asked).circuit == HalfOpen && Probes(cfg, asked) == 1)
      && (!Granted(cfg, asked) ==> After(cfg, asked) == After(cfg, t))
  {
    CircuitRefinesReports(cfg, t);
    OneProbePerEpisode(cfg, t);
    OneProbePerEpisode(cfg, Then(t, Ask, at));
    OpenSinceLastOpening(cfg, t);
  }

  /** Looking at an open circuit finds it half-open exactly if its last opening is a cool-down ago. */
  lemma LookIs(cfg: Settings, t: Trace, at: Time)
    requires cfg.Valid()
    ensures var (was, now) := (After(cfg, t).circuit, After(cfg, Then(t, Look, at)).circuit);
      now == if was == Open && LastOpening(cfg, t).Some? && at - LastOpening(cfg, t).value >= cfg.coolDown
             then HalfOpen else was
  {
    OpenSinceLastOpening(cfg, t);
  }

  // ---- an outage -------------------------------------------------------------------------------

  /** `t` continues `start` with a clock that never goes back and nothing but infrastructure errors. */
  predicate Outage(start: Trace, t: Trace) {
    t == start || (t.Then? && Outage(start, t.before) && t.before.at <= t.at && (t.call.Report? ==> t.call.infra))
  }

  /** Before the next grant, one more cool-down must have passed. */
  predicate Paced(cfg: Settings, b: Breaker, openedAt: Time, grants: int, now: Time) {
    && openedAt + grants * cfg.coolDown <= now
    && b.since <= now
    && match b.circuit
       case Closed => false
       case Open => openedAt + grants * cfg.coolDown <= b.since
       case HalfOpen => b.probing || openedAt + (grants + 1) * cfg.coolDown <= b.since
  }

  lemma StepIsPaced(cfg: Settings, b: Breaker, call: Call, openedAt: Time, grants: int, now: Time, at: Time)
    requires cfg.Valid() && cfg.enabled && now <= at && Paced(cfg, b, openedAt, grants, now)
    requires call.Report? ==> call.infra
    ensures call.Ask? ==>
      var (c, ok) := Allowed(cfg, b, at); Paced(cfg, c, openedAt, if ok then grants + 1 else grants, at)
    ensures call.Report? ==> Paced(cfg, Reported(cfg, b, at, call.infra), openedAt, grants, at)
    ensures call.Look? ==> Paced(cfg, Current(cfg, b, at), openedAt, grants, at)
  {
    assert (grants + 1) * cfg.coolDown == grants * cfg.coolDown + cfg.coolDown;
  }

  lemma {:induction false} OutageIsPaced(cfg: Settings, start: Trace, t: Trace)
    requires cfg.Valid() && cfg.enabled && Outage(start, t)
    requires After(cfg, start).circuit == Open && After(cfg, start).since == start.at
    ensures Grants(cfg, t) >= Grants(cfg, start)
    ensures Paced(cfg, After(cfg, t), start.at, Grants(cfg, t) - Grants(cfg, start), t.at)
  {
    if t != start {
      OutageIsPaced(cfg, start, t.before);
      var granted := Grants(cfg, t.before) - Grants(cfg, start);
      StepIsPaced(cfg, After(cfg, t.before), t.call, start.at, granted, t.before.at, t.at);
    }
  }

  /**
   If the breaker opens at `start` and only infrastructure errors are reported from then on, it lets at
   most one operation through for each full cool-down that has passed.
   */
  lemma OutageBound(cfg: Settings, start: Trace, t: Trace)
    requires cfg.Valid() && cfg.enabled && Outage(start, t)
    requires After(cfg, start).circuit == Open && After(cfg, start).since == start.at
    ensures Grants(cfg, t) - Grants(cfg, start) <= (t.at - start.at) / cfg.coolDown
  {
    OutageIsPaced(cfg, start, t);
    FitsInQuotient(Grants(cfg, t) - Grants(cfg, start), cfg.coolDown, t.at - start.at);
  }

  /** A probe after every cool-down, each failing at once. */
  function Probing(cfg: Settings, start: Trace, n: nat): Trace {
    if n == 0 then start
    else
      var at := start.at + n * cfg.coolDown;
      Then(Then(Probing(cfg, start, n - 1), Ask, at), Report(true), at)
  }

  lemma FailedProbe(cfg: Settings, p: Trace, at: Time)
    requires cfg.enabled && After(cfg, p).circuit == Open && at - After(cfg, p).since >= cfg.coolDown
    ensures var t := Then(Then(p, Ask, at), Report(true), at);
      After(cfg, t) == Breaker(Open, After(cfg, p).failures, at, false) && Grants(cfg, t) == Grants(cfg, p) + 1
  {
    assert After(cfg, Then(p, Ask, at)) == Breaker(HalfOpen, After(cfg, p).failures, at, true);
    assert Granted(cfg, Then(p, Ask, at)) && !Granted(cfg, Then(Then(p, Ask, at), Report(true), at));
  }

  /** The bound is attained, for every number of cool-downs. */
  lemma {:induction false} OutageBoundIsTight(cfg: Settings, start: Trace, n: nat)
    requires cfg.Valid() && cfg.enabled
    requires After(cfg, start).circuit == Open && After(cfg, start).since == start.at
    ensures var t := Probing(cfg, start, n);
      && Outage(start, t)
      && t.at == start.at + n * cfg.coolDown
      && After(cfg, t).circuit == Open && After(cfg, t).since == t.at
      && Grants(cfg, t) - Grants(cfg, start) == n == (t.at - start.at) / cfg.coolDown
  {
    QuotientIs(n * cfg.coolDown, cfg.coolDown, n);
    if n > 0 {
      OutageBoundIsTight(cfg, start, n - 1);
      var (p, at) := (Probing(cfg, start, n - 1), start.at + n * cfg.coolDown);
      assert n * cfg.coolDown == (n - 1) * cfg.coolDown + cfg.coolDown;
      FailedProbe(cfg, p, at);
      OutageContinues(start, p, at);
    }
  }

  lemma OutageContinues(start: Trace, p: Trace, at: Time)
    requires Outage(start, p) && p.at <= at
    ensures Outage(start, Then(Then(p, Ask, at), Report(true), at))
  {
    assert Outage(start, Then(p, Ask, at));
  }

  // ---- the object ------------------------------------------------------------------------------

  class CircuitBreaker {
    const cfg: Settings
    var circuit: Circuit
    var failures: nat
    var lastStateChange: Time
    var halfOpenInFlight: bool
    ghost var trace: Trace

    ghost function State(): Breaker
      reads this
    {
      Breaker(circuit, failures, lastStateChange, halfOpenInFlight)
    }

    ghost predicate Valid()
      reads this
    {
      cfg.Valid() && State() == After(cfg, trace)
    }

    constructor (cfg: Settings, now: Time)
      ensures Valid() && trace == Fresh(now)
      ensures this.cfg == Settings(cfg.enabled, if cfg.threshold <= 0 then 5 else cfg.threshold,
                                   if cfg.coolDown <= 0 then 5 * SECOND else cfg.coolDown)
    {
      this.cfg := Settings(cfg.enabled, if cfg.threshold <= 0 then 5 else cfg.threshold,
                           if cfg.coolDown <= 0 then 5 * SECOND else cfg.coolDown);
      circuit, failures, lastStateChange, halfOpenInFlight := Closed, 0, now, false;
      trace := Fresh(now);
    }

    method Transition(to: Circuit, now: Time)
      modifies this`circuit, this`failures, this`lastStateChange, this`halfOpenInFlight
      ensures State() == if old(circuit) == to then old(State())
                         else Breaker(to, if to == Closed then 0 else old(failures), now, false)
    {
      if circuit == to {
        return;
      }
      circuit, lastStateChange, halfOpenInFlight := to, now, false;
      if to == Closed {
        failures := 0;
      }
    }

    method CurrentState(now: Time) returns (c: Circuit)
      modifies this`circuit, this`failures, this`lastStateChange, this`halfOpenInFlight
      ensures State() == Current(cfg, old(State()), now) && c == circuit
    {
      if circuit == Open {
        if now - lastStateChange >= cfg.coolDown {
          Transition(HalfOpen, now);
        }
      }
      return circuit;
    }

    method Query(now: Time) returns (c: Circuit)
      requires Valid()
      modifies this
      ensures Valid() && trace == Then(old(trace), Look, now) && c == circuit
    {
      c := CurrentState(now);
      trace := Then(trace, Look, now);
    }

    method Allow(now: Time) returns (ok: bool)
      requires Valid()
      modifies this
      ensures Valid() && trace == Then(old(trace), Ask, now)
      ensures ok == Granted(cfg, trace)
    {
      trace := Then(trace, Ask, now);
      if !cfg.enabled {
        return true;
      }
      var c := CurrentState(now);
      match c {
        case Open =>
          return false;
        case HalfOpen =>
          if halfOpenInFlight {
            return false;
          }
          halfOpenInFlight := true;
          return true;
        case Closed =>
          return true;
      }
    }

    method Done(infra: bool, now: Time)
      requires Valid()
      modifies this
      ensures Valid() && trace == Then(old(trace), Report(infra), now)
    {
      trace := Then(trace, Report(infra), now);
      if !cfg.enabled {
        return;
      }
      if !infra {
        if circuit == HalfOpen {
          Transition(Closed, now);
        } else if circuit == Closed {
          failures := 0;
        }
        halfOpenInFlight := false;
        return;
      }
      if circuit == HalfOpen {
        Transition(Open, now);
        return;
      }
      if circuit == Closed {
        failures := failures + 1;
        if failures >= cfg.threshold {
          Transition(Open, now);
        }
      }
    }
  }
}
