/** pkg/circuitbreaker: calls that do not overlap, and the Breaker object. */
module BreakerSequential {
  import opened Collections
  import opened CircuitBreaker

  /** A breaker without generations and without in-flight counting. */
  datatype Simple = Running(failures: nat) | Tripped(at: int) | Probing(successes: nat)

  /** One Do: when it asks for admission, how fn ends (a panic counts as a failure), and when the
      outcome is recorded. */
  datatype Attempt = Attempt(asked: int, success: bool, ended: int)

  datatype Limits = Limits(failureThreshold: int, successThreshold: int, openTimeout: int)

  function SimpleReport(l: Limits, m: Simple, now: int): Position {
    match m
    case Running(_) => Closed
    case Tripped(at) => if now - at >= l.openTimeout then HalfOpen else Open
    case Probing(_) => HalfOpen
  }

  /** The simple machine on one call: the next state and whether fn ran. */
  function SimpleDo(l: Limits, m: Simple, c: Attempt): (Simple, bool) {
    match m
    case Running(f) =>
      (if c.success then Running(0) else if f + 1 >= l.failureThreshold then Tripped(c.ended) else Running(f + 1),
       true)
    case Tripped(at) =>
      if c.asked - at < l.openTimeout then (m, false) else (Probe(l, 0, c), true)
    case Probing(k) => (Probe(l, k, c), true)
  }

  function Probe(l: Limits, k: nat, c: Attempt): Simple {
    if !c.success then Tripped(c.ended)
    else if k + 1 >= l.successThreshold then Running(0) else Probing(k + 1)
  }

  /** Do on the real fields. */
  function Guarded(b: Core, c: Attempt): (Core, bool) {
    var (a, g) := b.Admit(c.asked);
    if g.None? then (a, false) else (a.Record(g.value, c.success, c.ended), true)
  }

  ghost function Trace(b: Core, calls: seq<Attempt>): (seq<bool>, Core)
    decreases |calls|
  {
    if calls == [] then ([], b)
    else
      var (b', ran) := Guarded(b, calls[0]);
      var (rest, end) := Trace(b', calls[1..]);
      ([ran] + rest, end)
  }

  ghost function SimpleTrace(l: Limits, m: Simple, calls: seq<Attempt>): (seq<bool>, Simple)
    decreases |calls|
  {
    if calls == [] then ([], m)
    else
      var (m', ran) := SimpleDo(l, m, calls[0]);
      var (rest, end) := SimpleTrace(l, m', calls[1..]);
      ([ran] + rest, end)
  }

  ghost function LimitsOf(b: Core): Limits { Limits(b.failureThreshold, b.successThreshold, b.openTimeout) }

  /** Between calls nothing is in flight, so the fields mean one simple state. */
  ghost predicate Means(b: Core, m: Simple) {
    && b.Configured()
    && match m
       case Running(f) => b.state == Closed && b.failures == f && f < b.failureThreshold
       case Tripped(at) => b.state == Open && b.openedAt == at
       case Probing(k) => b.state == HalfOpen && b.successes == k && k < b.successThreshold && b.inFlight == 0
  }

  lemma DoRefines(b: Core, m: Simple, c: Attempt)
    requires Means(b, m)
    ensures Guarded(b, c).1 == SimpleDo(LimitsOf(b), m, c).1
    ensures Means(Guarded(b, c).0, SimpleDo(LimitsOf(b), m, c).0)
    ensures LimitsOf(Guarded(b, c).0) == LimitsOf(b)
  {
  }

  /** For every sequence of calls that do not overlap, the breaker with generations and in-flight
      counts lets exactly the same calls run as the simple machine, and State reports the same
      position at every later instant. */
  lemma {:induction false} SequentialRefinement(b: Core, m: Simple, calls: seq<Attempt>, now: int)
    requires Means(b, m)
    ensures Trace(b, calls).0 == SimpleTrace(LimitsOf(b), m, calls).0
    ensures Means(Trace(b, calls).1, SimpleTrace(LimitsOf(b), m, calls).1)
    ensures LimitsOf(Trace(b, calls).1) == LimitsOf(b)
    ensures Trace(b, calls).1.Report(now) == SimpleReport(LimitsOf(b), SimpleTrace(LimitsOf(b), m, calls).1, now)
    decreases |calls|
  {
    if calls != [] {
      DoRefines(b, m, calls[0]);
      SequentialRefinement(Guarded(b, calls[0]).0, SimpleDo(LimitsOf(b), m, calls[0]).0, calls[1..], now);
    }
  }

  /** A new breaker starts as the simple machine with no failures. */
  lemma FreshMeansRunning(ft: int, st: int, timeout: int, calls: seq<Attempt>)
    requires ft >= 1 && st >= 1 && timeout >= 1
    ensures Trace(Fresh(ft, st, timeout), calls).0 == SimpleTrace(Limits(ft, st, timeout), Running(0), calls).0
  {
    SequentialRefinement(Fresh(ft, st, timeout), Running(0), calls, 0);
  }

  datatype Reply = CtxErr | ErrOpen | FnNil | FnErr | FnPanic

  /** How fn behaves if it is run. */
  datatype Fn = ReturnsNil | ReturnsErr | Panics

  class Breaker {
    const failureThreshold: int
    const successThreshold: int
    const openTimeout: int
    var state: Position
    var generation: nat
    var failures: int
    var successes: int
    var inFlight: int
    var openedAt: int

    ghost function View(): Core
      reads this
    {
      Core(failureThreshold, successThreshold, openTimeout, state, generation, failures, successes, inFlight, openedAt)
    }

    /** New on thresholds its options accept; they panic on all others. */
    constructor (failureThreshold: int, successThreshold: int, openTimeout: int)
      requires failureThreshold > 0 && successThreshold > 0 && openTimeout > 0
      ensures View() == Fresh(failureThreshold, successThreshold, openTimeout) && View().Configured()
    {
      this.failureThreshold := failureThreshold;
      this.successThreshold := successThreshold;
      this.openTimeout := openTimeout;
      state, generation := Closed, 0;
      failures, successes, inFlight, openedAt := 0, 0, 0, 0;
    }

    method Transition(to: Position, now: int)
      modifies this
      ensures View() == old(View()).Transition(to, now)
    {
      state := to;
      generation := generation + 1;
      failures := 0;
      successes := 0;
      inFlight := 0;
      if to == Open {
        openedAt := now;
      }
    }

    method Admit(now: int) returns (gen: Option<nat>)
      modifies this
      ensures (View(), gen) == old(View()).Admit(now)
    {
      if state == Open {
        if now - openedAt < openTimeout {
          return None;
        }
        Transition(HalfOpen, now);
      }
      if state == HalfOpen {
        if successes + inFlight >= successThreshold {
          return None;
        }
        inFlight := inFlight + 1;
      }
      return Some(generation);
    }

    method Record(gen: nat, success: bool, now: int)
      modifies this
      ensures View() == old(View()).Record(gen, success, now)
    {
      if gen != generation {
        return;
      }
      match state {
        case Closed =>
          if success {
            failures := 0;
            return;
          }
          failures := failures + 1;
          if failures >= failureThreshold {
            Transition(Open, now);
          }
        case HalfOpen =>
          inFlight := inFlight - 1;
          if !success {
            Transition(Open, now);
            return;
          }
          successes := successes + 1;
          if successes >= successThreshold {
            Transition(Closed, now);
          }
        case Open =>
      }
    }

    method State(now: int) returns (p: Position)
      ensures p == View().Report(now)
      ensures p == View().Admit(now).0.state
    {
      if state == Open && now - openedAt >= openTimeout {
        return HalfOpen;
      }
      return state;
    }

    /** A whole call with no other call overlapping it. */
    method Do(ctxDone: bool, fn: Fn, asked: int, ended: int) returns (r: Reply)
      modifies this
      ensures ctxDone ==> r == CtxErr && View() == old(View())
      ensures !ctxDone ==>
                && View() == Guarded(old(View()), Attempt(asked, fn == ReturnsNil, ended)).0
                && (r == ErrOpen <==> !Guarded(old(View()), Attempt(asked, fn == ReturnsNil, ended)).1)
      ensures !ctxDone && r != ErrOpen ==>
                r == match fn case ReturnsNil => FnNil case ReturnsErr => FnErr case Panics => FnPanic
    {
      if ctxDone {
        return CtxErr;
      }
      var gen := Admit(asked);
      if gen.None? {
        return ErrOpen;
      }
      match fn {
        case ReturnsNil =>
          Record(gen.value, true, ended);
          return FnNil;
        case ReturnsErr =>
          Record(gen.value, false, ended);
          return FnErr;
        case Panics =>
          Record(gen.value, false, ended);
          return FnPanic;
      }
    }
  }
}
