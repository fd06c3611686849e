/** pkg/lifecycle: any number of Shutdown callers converging on one run of the hooks, last registered first. A hook
    is named by its registration; hooks are assumed not to panic. A combined error is the sequence of the hooks'
    errors, empty for nil. */
module Lifecycle {
  import opened Collections
  import opened Runs

  /** A Shutdown call: waiting for the first one, running the hooks down from index i, or returned. */
  datatype Caller<E> = Waiting | Running(i: int, errs: seq<E>) | Returned(err: seq<E>)

  /** `first` is the caller that runs the hooks, once one has started; `log` and `outcomes` record the hooks run and
      what they returned; `rejected` counts Register calls that panicked. */
  datatype State<E> = State(hooks: seq<nat>, started: bool, finished: bool, result: seq<E>,
                            callers: map<nat, Caller<E>>, first: nat, log: seq<nat>, outcomes: seq<Option<E>>,
                            rejected: nat, triggered: bool, triggerCloses: nat)

  datatype Event<E> =
    | Register(hook: nat)
    | Shutdown(c: nat)
    | RunHook(c: nat, outcome: Option<E>)
    | Finish(c: nat)
    | Wake(c: nat)
    | Trigger

  ghost predicate Init<E>(s: State<E>) {
    && s.hooks == [] && !s.started && !s.finished && s.callers == map[] && s.log == [] && s.outcomes == []
    && s.rejected == 0 && !s.triggered && s.triggerCloses == 0
  }

  predicate Enabled<E>(s: State<E>, e: Event<E>) {
    match e
    case Register(_) => true
    case Shutdown(c) => c !in s.callers
    case RunHook(c, _) => c in s.callers && s.callers[c].Running? && 0 <= s.callers[c].i < |s.hooks|
    case Finish(c) => c in s.callers && s.callers[c].Running? && s.callers[c].i < 0
    case Wake(c) => c in s.callers && s.callers[c].Waiting? && s.finished
    case Trigger => true
  }

  function Apply<E>(s: State<E>, e: Event<E>): State<E>
    requires Enabled(s, e)
  {
    match e
    case Register(hook) =>
      if s.started then s.(rejected := s.rejected + 1) else s.(hooks := s.hooks + [hook])
    case Shutdown(c) =>
      if s.started then s.(callers := s.callers[c := Waiting])
      else s.(started := true, first := c, callers := s.callers[c := Running(|s.hooks| - 1, [])])
    case RunHook(c, outcome) =>
      var me := s.callers[c];
      s.(log := s.log + [s.hooks[me.i]], outcomes := s.outcomes + [outcome],
         callers := s.callers[c := Running(me.i - 1, if outcome.Some? then me.errs + [outcome.value] else me.errs)])
    case Finish(c) =>
      s.(result := s.callers[c].errs, finished := true, callers := s.callers[c := Returned(s.callers[c].errs)])
    case Wake(c) => s.(callers := s.callers[c := Returned(s.result)])
    case Trigger =>
      if s.triggered then s else s.(triggered := true, triggerCloses := s.triggerCloses + 1)
  }

  ghost predicate Next<E>(s: State<E>, e: Event<E>, s': State<E>) {
    Enabled(s, e) && s' == Apply(s, e)
  }

  /** The order in which hooks run: the last one registered first. */
  function Reversed<T>(xs: seq<T>): (r: seq<T>)
    ensures |r| == |xs|
  {
    if xs == [] then [] else [Last(xs)] + Reversed(Front(xs))
  }

  /** The hook the loop runs when its index is i comes right after those that ran before it. */
  lemma {:induction false} NextHook<T>(xs: seq<T>, i: nat)
    requires i < |xs|
    ensures Reversed(xs)[..|xs| - i] == Reversed(xs)[..|xs| - 1 - i] + [xs[i]]
  {
    var r := Reversed(xs);
    if i < |xs| - 1 {
      NextHook(Front(xs), i);
      assert r == [Last(xs)] + Reversed(Front(xs));
      assert r[..|xs| - i] == [Last(xs)] + Reversed(Front(xs))[..|xs| - 1 - i];
      assert r[..|xs| - 1 - i] == [Last(xs)] + Reversed(Front(xs))[..|xs| - 2 - i];
    }
  }

  /** The errors among a sequence of outcomes, in order: what errors.Join combines. */
  function Errors<E>(outcomes: seq<Option<E>>): seq<E> {
    if outcomes == [] then []
    else Errors(Front(outcomes)) + (if Last(outcomes).Some? then [Last(outcomes).value] else [])
  }

  /** How many of the first n hooks failed. */
  function Failed<E>(outcomes: seq<Option<E>>, n: nat): nat
    requires n <= |outcomes|
  {
    if n == 0 then 0 else Failed(outcomes, n - 1) + (if outcomes[n - 1].Some? then 1 else 0)
  }

  lemma {:induction false} FailedFront<E>(outcomes: seq<Option<E>>, n: nat)
    requires n < |outcomes|
    ensures Failed(Front(outcomes), n) == Failed(outcomes, n)
  {
    if n > 0 { FailedFront(outcomes, n - 1); }
  }

  /** The combined error holds the error of every hook that failed, at the place its failure has among the failures,
      and nothing else. */
  lemma {:induction false} ErrorsMeaning<E>(outcomes: seq<Option<E>>)
    ensures |Errors(outcomes)| == Failed(outcomes, |outcomes|)
    ensures forall i | 0 <= i < |outcomes| && outcomes[i].Some? ::
              Failed(outcomes, i) < |Errors(outcomes)| && Errors(outcomes)[Failed(outcomes, i)] == outcomes[i].value
  {
    if outcomes != [] {
      var f, n := Front(outcomes), |outcomes| - 1;
      ErrorsMeaning(f);
      FailedFront(outcomes, n);
      forall i | 0 <= i < |outcomes| && outcomes[i].Some?
        ensures Failed(outcomes, i) < |Errors(outcomes)| && Errors(outcomes)[Failed(outcomes, i)] == outcomes[i].value
      {
        if i < n { FailedFront(outcomes, i); assert f[i].Some?; }
      }
    }
  }

  ghost predicate Inv<E>(s: State<E>) {
    && s.triggerCloses == (if s.triggered then 1 else 0)
    && |s.log| == |s.outcomes|
    && (!s.started ==> s.callers == map[] && s.log == [] && !s.finished)
    && (s.started ==>
          && s.first in s.callers
          && !s.callers[s.first].Waiting?
          && (forall c | c in s.callers && c != s.first :: !s.callers[c].Running?)
          && s.log <= Reversed(s.hooks)
          && (s.callers[s.first].Running? ==>
                !s.finished && s.callers[s.first].i == |s.hooks| - 1 - |s.log| && s.callers[s.first].errs == Errors(s.outcomes))
          && (s.callers[s.first].Returned? ==> s.finished))
    && (s.finished ==> |s.log| == |s.hooks| && s.result == Errors(s.outcomes))
    && (forall c | c in s.callers && s.callers[c].Returned? :: s.finished && s.callers[c].err == s.result)
  }

  /** A log that is a beginning of `order` still is one with the next element of it. */
  lemma LogGrows(log: seq<nat>, order: seq<nat>, hook: nat)
    requires log <= order && |log| < |order| && order[..|log| + 1] == order[..|log|] + [hook]
    ensures log + [hook] <= order
  {
    assert order[|log|] == order[..|log| + 1][|log|];
  }

  lemma HookStep<E>(s: State<E>, c: nat, outcome: Option<E>)
    requires Inv(s) && Enabled(s, RunHook(c, outcome))
    ensures Inv(Apply(s, RunHook(c, outcome)))
  {
    var s' := Apply(s, RunHook(c, outcome));
    assert c == s.first;
    NextHook(s.hooks, s.callers[c].i);
    LogGrows(s.log, Reversed(s.hooks), s.hooks[s.callers[c].i]);
    assert Front(s'.outcomes) == s.outcomes;
  }

  lemma StepInv<E>(s: State<E>, e: Event<E>, s': State<E>)
    requires Inv(s) && Next(s, e, s')
    ensures Inv(s')
  {
    match e
    case RunHook(c, outcome) => HookStep(s, c, outcome);
    case Register(_) =>
    case Shutdown(_) =>
    case Finish(c) =>
      assert c == s.first;
    case Wake(_) =>
    case Trigger =>
  }

  lemma RunInv<E(!new)>(ss: seq<State<E>>, es: seq<Event<E>>, k: nat)
    requires Run(Init, Next, ss, es) && k < |ss|
    ensures Inv(ss[k])
  {
    forall s: State<E>, e, s' | Inv(s) && Next(s, e, s') ensures Inv(s') { StepInv(s, e, s'); }
    Invariance(Init, Next, Inv, ss, es, k);
  }

  /** For any number of concurrent Shutdown callers: the hooks run so far are always a prefix of the registrations
      in reverse; when any caller has returned all of them have run, each exactly once; and every caller returns the
      errors of that one run, in the order the hooks failed. Trigger closes its channel at most once. */
  lemma ShutdownConverges<E(!new)>(ss: seq<State<E>>, es: seq<Event<E>>, k: nat)
    requires Run(Init, Next, ss, es) && k < |ss|
    ensures var s := ss[k];
            && s.log <= Reversed(s.hooks)
            && (forall c | c in s.callers && s.callers[c].Returned? ::
                  s.log == Reversed(s.hooks) && s.callers[c].err == Errors(s.outcomes))
            && s.triggerCloses <= 1
  {
    RunInv(ss, es, k);
  }

  /** Once a Shutdown has begun, the hooks are frozen for the rest of the run. */
  lemma {:induction false} HooksFrozen<E(!new)>(ss: seq<State<E>>, es: seq<Event<E>>, i: nat, j: nat)
    requires Run(Init, Next, ss, es) && i <= j < |ss| && ss[i].started
    ensures ss[j].started && ss[j].hooks == ss[i].hooks && ss[i].log <= ss[j].log
    decreases j - i
  {
    if i < j {
      HooksFrozen(ss, es, i, j - 1);
      assert Next(ss[j - 1], es[j - 1], ss[j - 1 + 1]);
    }
  }

  /** The hooks registered by a sequence of events: those of the Register calls before the first Shutdown. */
  ghost function Registered<E>(es: seq<Event<E>>): seq<nat> {
    if es == [] then []
    else Registered(Front(es)) + (if Last(es).Register? && !Begun(Front(es)) then [Last(es).hook] else [])
  }

  ghost predicate Begun<E>(es: seq<Event<E>>) { exists i :: 0 <= i < |es| && es[i].Shutdown? }

  /** In every run the hooks are those registered before the first Shutdown, in order; whoever comes later is rejected. */
  lemma {:induction false} HooksAreRegistrations<E(!new)>(ss: seq<State<E>>, es: seq<Event<E>>, k: nat)
    requires Run(Init, Next, ss, es) && k < |ss|
    ensures ss[k].hooks == Registered(es[..k]) && (ss[k].started <==> Begun(es[..k]))
    ensures k < |es| && es[k].Register? && Begun(es[..k]) ==> ss[k + 1] == ss[k].(rejected := ss[k].rejected + 1)
  {
    if k > 0 {
      HooksAreRegistrations(ss, es, k - 1);
      assert Next(ss[k - 1], es[k - 1], ss[k - 1 + 1]);
      assert Front(es[..k]) == es[..k - 1] && Last(es[..k]) == es[k - 1];
      if Begun(es[..k - 1]) {
        var i :| 0 <= i < k - 1 && es[..k - 1][i].Shutdown?;
        assert es[..k][i].Shutdown?;
      }
      if es[k - 1].Shutdown? { assert es[..k][k - 1].Shutdown?; }
      if Begun(es[..k]) && !es[k - 1].Shutdown? {
        var i :| 0 <= i < k && es[..k][i].Shutdown?;
        assert es[..k - 1][i].Shutdown?;
      }
    }
    if k < |es| { assert Next(ss[k], es[k], ss[k + 1]); }
  }

  /** Nobody is stuck: once a Shutdown began, its caller can run the next hook or finish, or has finished, and then
      everybody who waits can return. */
  lemma SomebodyCanStep<E(!new)>(ss: seq<State<E>>, es: seq<Event<E>>, k: nat, c: nat, outcome: Option<E>)
    requires Run(Init, Next, ss, es) && k < |ss| && c in ss[k].callers && !ss[k].callers[c].Returned?
    ensures var s := ss[k];
            || Enabled(s, Wake(c))
            || Enabled(s, RunHook(s.first, outcome))
            || Enabled(s, Finish(s.first))
  {
    RunInv(ss, es, k);
  }

  /** A Trigger latches: the request stands from then on, its channel closed once. */
  lemma TriggerLatches<E(!new)>(ss: seq<State<E>>, es: seq<Event<E>>, j: nat, k: nat)
    requires Run(Init, Next, ss, es) && j < k < |ss| && es[j] == Trigger
    ensures ss[k].triggered && ss[k].triggerCloses == 1
  {
    forall i | 0 <= i < |es| ensures ss[i].triggered || es[i] == Trigger ==> ss[i + 1].triggered {
      assert Next(ss[i], es[i], ss[i + 1]);
    }
    FromThenOn((s: State<E>) => s.triggered, ss, j + 1, k);
    RunInv(ss, es, k);
  }

  class Coordinator<E(0)> {
    var hooks: seq<nat>
    var started: bool
    var finished: bool
    var result: seq<E>
    var triggered: bool

    ghost predicate Valid()
      reads this
    {
      finished == started
    }

    constructor ()
      ensures Valid() && hooks == [] && !started && !triggered
    {
      hooks, started, finished, result, triggered := [], false, false, [], false;
    }

    /** False where the source panics. */
    method Register(hook: nat) returns (ok: bool)
      modifies this`hooks
      ensures ok == !started
      ensures hooks == if ok then old(hooks) + [hook] else old(hooks)
    {
      if started {
        return false;
      }
      hooks := hooks + [hook];
      return true;
    }

    /** An uncontended Shutdown: the first runs every hook, last registered first, a failing one not stopping the
        rest; a later one only returns the first one's result. `fail(h)` is what hook h returns. */
    method Shutdown(fail: nat -> Option<E>) returns (err: seq<E>, log: seq<nat>)
      requires Valid()
      modifies this`started, this`finished, this`result
      ensures Valid() && started && err == result
      ensures old(started) ==> log == [] && result == old(result)
      ensures !old(started) ==>
                && log == Reversed(hooks)
                && err == Errors(seq(|log|, k requires 0 <= k < |log| => fail(log[k])))
    {
      if started {
        return result, [];
      }
      started := true;
      var errs: seq<E> := [];
      log := [];
      ghost var outcomes: seq<Option<E>> := [];
      var i := |hooks| - 1;
      while i >= 0
        invariant started && -1 <= i < |hooks| && |log| == |hooks| - 1 - i == |outcomes|
        invariant log == Reversed(hooks)[..|log|]
        invariant forall k | 0 <= k < |log| :: outcomes[k] == fail(log[k])
        invariant errs == Errors(outcomes)
      {
        NextHook(hooks, i);
        var e := fail(hooks[i]);
        log := log + [hooks[i]];
        assert Front(outcomes + [e]) == outcomes;
        outcomes := outcomes + [e];
        if e.Some? {
          errs := errs + [e.value];
        }
        i := i - 1;
      }
      result := errs;
      finished := true;
      assert outcomes == seq(|log|, k requires 0 <= k < |log| => fail(log[k]));
      return result, log;
    }

    /** Latches the request; true for the call that did it. */
    method Trigger() returns (first: bool)
      modifies this`triggered
      ensures triggered && first == !old(triggered)
    {
      first := !triggered;
      triggered := true;
    }
  }
}
