/** pkg/workerpool: a bounded queue between submitters that hold a read lock while they wait, workers,
    and concurrent closers. A task is named by the Submit call that brought it. Tasks are assumed not to
    call back into the pool, and not to panic unless a panic handler is installed. */
module WorkerPool {
  import opened Collections
  import opened Runs

  datatype Reply = Nil | ErrClosed | ErrQueueFull | CtxErr

  datatype Submitter = Blocked | Returned(reply: Reply)
  datatype Worker = Idle | Running(task: nat) | Exited
  datatype Closer = Waiting | ReturnedNil | TimedOut

  /** `closes` counts close(queue) and `fault` is raised by a send on the closed queue; `admitted`,
      `started` and `finished` log the tasks in order. */
  datatype State = State(cap: nat, nonBlock: bool, queue: seq<nat>, closed: bool, closes: nat, fault: bool,
                         submits: map<nat, Submitter>, workers: map<nat, Worker>, closers: map<nat, Closer>,
                         admitted: seq<nat>, started: seq<nat>, finished: seq<nat>)
  {
    predicate NoReaders() { forall t | t in submits :: submits[t].Returned? }
    predicate Joined() { forall w | w in workers :: workers[w].Exited? }
  }

  datatype Event =
    | Submit(t: nat)
    | Send(t: nat)
    | HandOff(t: nat, w: nat)
    | Full(t: nat)
    | GiveUp(t: nat)
    | Fetch(w: nat)
    | Finish(w: nat)
    | Exit(w: nat)
    | CloseLock(c: nat)
    | CloseDone(c: nat)
    | CloseTimeout(c: nat)

  /** New with at least one worker; it panics on none. */
  ghost predicate Init(s: State) {
    && s.queue == [] && !s.closed && s.closes == 0 && !s.fault
    && s.submits == map[] && s.closers == map[]
    && s.workers != map[] && (forall w | w in s.workers :: s.workers[w].Idle?)
    && s.admitted == s.started == s.finished == []
  }

  predicate Enabled(s: State, e: Event) {
    match e
    case Submit(t) => t !in s.submits
    case Send(t) => t in s.submits && s.submits[t].Blocked? && |s.queue| < s.cap
    case HandOff(t, w) =>
      t in s.submits && s.submits[t].Blocked? && s.queue == [] && w in s.workers && s.workers[w].Idle?
    case Full(t) => t in s.submits && s.submits[t].Blocked? && s.nonBlock && |s.queue| >= s.cap
    case GiveUp(t) => t in s.submits && s.submits[t].Blocked? && !s.nonBlock
    case Fetch(w) => w in s.workers && s.workers[w].Idle? && s.queue != []
    case Finish(w) => w in s.workers && s.workers[w].Running?
    case Exit(w) => w in s.workers && s.workers[w].Idle? && s.queue == [] && s.closed
    case CloseLock(c) => c !in s.closers && s.NoReaders()
    case CloseDone(c) => c in s.closers && s.closers[c].Waiting? && s.Joined()
    case CloseTimeout(c) => c in s.closers && s.closers[c].Waiting?
  }

  function Apply(s: State, e: Event): State
    requires Enabled(s, e)
  {
    match e
    case Submit(t) => s.(submits := s.submits[t := if s.closed then Returned(ErrClosed) else Blocked])
    case Send(t) =>
      s.(submits := s.submits[t := Returned(Nil)], queue := s.queue + [t], admitted := s.admitted + [t],
         fault := s.fault || s.closed)
    case HandOff(t, w) =>
      s.(submits := s.submits[t := Returned(Nil)], workers := s.workers[w := Running(t)],
         admitted := s.admitted + [t], started := s.started + [t], fault := s.fault || s.closed)
    case Full(t) => s.(submits := s.submits[t := Returned(ErrQueueFull)])
    case GiveUp(t) => s.(submits := s.submits[t := Returned(CtxErr)])
    case Fetch(w) =>
      s.(workers := s.workers[w := Running(s.queue[0])], queue := s.queue[1..], started := s.started + [s.queue[0]])
    case Finish(w) => s.(workers := s.workers[w := Idle], finished := s.finished + [s.workers[w].task])
    case Exit(w) => s.(workers := s.workers[w := Exited])
    case CloseLock(c) =>
      s.(closers := s.closers[c := Waiting], closed := true, closes := if s.closed then s.closes else s.closes + 1)
    case CloseDone(c) => s.(closers := s.closers[c := ReturnedNil])
    case CloseTimeout(c) => s.(closers := s.closers[c := TimedOut])
  }

  ghost predicate Next(s: State, e: Event, s': State) {
    Enabled(s, e) && s' == Apply(s, e)
  }

  /** The workers busy with task t. */
  ghost function Busy(workers: map<nat, Worker>, t: nat): set<nat> {
    set w | w in workers && workers[w] == Running(t)
  }

  ghost predicate QueueInv(s: State) {
    && s.started + s.queue == s.admitted
    && |s.queue| <= s.cap
    && Distinct(s.admitted)
    && (forall t :: t in s.admitted <==> t in s.submits && s.submits[t] == Returned(Nil))
  }

  ghost predicate LockInv(s: State) {
    && !s.fault
    && s.closes == (if s.closed then 1 else 0)
    && (s.closed ==> s.NoReaders())
    && s.workers != map[]
    && (forall w | w in s.workers && s.workers[w].Exited? :: s.closed && s.queue == [])
    && (forall c | c in s.closers :: s.closed)
    && (forall c | c in s.closers && s.closers[c].ReturnedNil? :: s.Joined())
  }

  ghost predicate WorkInv(s: State) {
    forall t :: multiset(s.started)[t] == multiset(s.finished)[t] + |Busy(s.workers, t)|
  }

  ghost predicate Inv(s: State) { QueueInv(s) && LockInv(s) && WorkInv(s) }

  lemma InitInv(s: State)
    requires Init(s)
    ensures Inv(s)
  {
    forall t ensures multiset(s.started)[t] == multiset(s.finished)[t] + |Busy(s.workers, t)| {
      assert Busy(s.workers, t) == {};
    }
  }

  /** Admitting a task that was waiting keeps the admitted tasks distinct and in step with the replies. */
  lemma Admit(s: State, t: nat, s': State)
    requires QueueInv(s) && t in s.submits && s.submits[t].Blocked?
    requires s'.admitted == s.admitted + [t] && s'.submits == s.submits[t := Returned(Nil)]
    ensures Distinct(s'.admitted)
    ensures forall x :: x in s'.admitted <==> x in s'.submits && s'.submits[x] == Returned(Nil)
  {
    assert t !in s.admitted;
  }

  lemma StepQueue(s: State, e: Event, s': State)
    requires QueueInv(s) && Next(s, e, s')
    ensures QueueInv(s')
  {
    match e
    case Send(t) => Admit(s, t, s');
    case HandOff(t, w) => Admit(s, t, s');
    case Fetch(w) => assert s.queue == [s.queue[0]] + s.queue[1..];
    case _ =>
  }

  lemma StepLock(s: State, e: Event, s': State)
    requires LockInv(s) && Next(s, e, s')
    ensures LockInv(s')
  {
    match e
    case Send(t) => assert !s.NoReaders();
    case HandOff(t, w) => assert !s.NoReaders();
    case Fetch(w) => assert !s.Joined();
    case Finish(w) => assert !s.Joined();
    case _ =>
  }

  lemma Reassign(s: State, s': State, w: nat, x: Worker, t: nat)
    requires w in s.workers && s'.workers == s.workers[w := x]
    ensures |Busy(s'.workers, t)|
            == |Busy(s.workers, t)| - (if s.workers[w] == Running(t) then 1 else 0) + (if x == Running(t) then 1 else 0)
  {
    CardFlip(Busy(s.workers, t), Busy(s'.workers, t), w);
  }

  lemma StepWork(s: State, e: Event, s': State)
    requires WorkInv(s) && Next(s, e, s')
    ensures WorkInv(s')
  {
    forall t ensures multiset(s'.started)[t] == multiset(s'.finished)[t] + |Busy(s'.workers, t)| {
      assert multiset(s.started)[t] == multiset(s.finished)[t] + |Busy(s.workers, t)|;
      if e.HandOff? || e.Fetch? || e.Finish? || e.Exit? { Reassign(s, s', e.w, s'.workers[e.w], t); }
    }
  }

  lemma RunInv(ss: seq<State>, es: seq<Event>, k: nat)
    requires Run(Init, Next, ss, es) && k < |ss|
    ensures Inv(ss[k])
  {
    forall s | Init(s) ensures Inv(s) { InitInv(s); }
    forall s, e, s' | Inv(s) && Next(s, e, s') ensures Inv(s') {
      StepQueue(s, e, s');
      StepLock(s, e, s');
      StepWork(s, e, s');
    }
    Invariance(Init, Next, Inv, ss, es, k);
  }

  /** In every run: the tasks started, followed by the tasks queued, are the tasks admitted, in admission
      order; the tasks admitted are exactly those whose Submit returned nil, each once; the queue is closed
      at most once and nothing is sent on it afterwards. */
  lemma PoolConservation(ss: seq<State>, es: seq<Event>, k: nat)
    requires Run(Init, Next, ss, es) && k < |ss|
    ensures var s := ss[k];
            && s.started + s.queue == s.admitted
            && Distinct(s.admitted)
            && (forall t :: t in s.admitted <==> t in s.submits && s.submits[t] == Returned(Nil))
            && s.closes <= 1 && !s.fault
  {
    RunInv(ss, es, k);
  }

  /** In every run a task is finished at most once, and only after it was admitted. */
  lemma FinishedOnce(ss: seq<State>, es: seq<Event>, k: nat, t: nat)
    requires Run(Init, Next, ss, es) && k < |ss|
    ensures multiset(ss[k].finished)[t] <= 1
    ensures t in ss[k].finished ==> t in ss[k].submits && ss[k].submits[t] == Returned(Nil)
  {
    RunInv(ss, es, k);
    var s := ss[k];
    DistinctCount(s.admitted, t);
    assert multiset(s.admitted) == multiset(s.started) + multiset(s.queue);
    assert multiset(s.started)[t] == multiset(s.finished)[t] + |Busy(s.workers, t)|;
    assert t in s.finished ==> multiset(s.finished)[t] >= 1;
  }

  /** When any Close has returned nil, every task whose Submit returned nil has finished, exactly once, and
      no other task ran. */
  lemma CloseDrains(ss: seq<State>, es: seq<Event>, k: nat, c: nat)
    requires Run(Init, Next, ss, es) && k < |ss|
    requires c in ss[k].closers && ss[k].closers[c] == ReturnedNil
    ensures multiset(ss[k].finished) == multiset(ss[k].admitted)
    ensures forall t | t in ss[k].submits ::
              multiset(ss[k].finished)[t] == if ss[k].submits[t] == Returned(Nil) then 1 else 0
  {
    RunInv(ss, es, k);
    var s := ss[k];
    assert s.Joined();
    var w :| w in s.workers;
    assert s.queue == [] && s.started == s.admitted;
    forall t ensures multiset(s.finished)[t] == multiset(s.admitted)[t] {
      assert Busy(s.workers, t) == {};
      assert multiset(s.started)[t] == multiset(s.finished)[t] + |Busy(s.workers, t)|;
    }
    forall t | t in s.submits
      ensures multiset(s.finished)[t] == if s.submits[t] == Returned(Nil) then 1 else 0
    {
      DistinctCount(s.admitted, t);
    }
  }

  /** What a Submit is told, and why, in every run: ErrClosed at once, if and only if the pool was closed when it was
      called; nil exactly when its task was admitted, to the queue while there was room or to an idle worker; ErrQueueFull
      only in a pool that does not block, and only while the queue was full; and the error of its context only in one that
      blocks. Replies are never taken back. */
  lemma SubmitReplies(ss: seq<State>, es: seq<Event>, k: nat, t: nat)
    requires Run(Init, Next, ss, es) && k < |es|
    ensures es[k] == Submit(t) ==>
              && t !in ss[k].submits && t in ss[k + 1].submits
              && ss[k + 1].submits[t] == if ss[k].closed then Returned(ErrClosed) else Blocked
    ensures t in ss[k].submits ==> t in ss[k + 1].submits
    ensures t in ss[k].submits && ss[k].submits[t].Returned? ==> ss[k + 1].submits[t] == ss[k].submits[t]
    ensures t in ss[k].submits && ss[k].submits[t].Blocked? && ss[k + 1].submits[t].Returned? ==>
              var s, s', r := ss[k], ss[k + 1], ss[k + 1].submits[t].reply;
              && !s.closed && r != ErrClosed
              && s'.admitted == (if r == Nil then s.admitted + [t] else s.admitted)
              && (r == Nil ==> |s.queue| < s.cap || (s.queue == [] && exists w :: w in s.workers && s.workers[w].Idle?))
              && (r == ErrQueueFull ==> s.nonBlock && |s.queue| >= s.cap)
              && (r == CtxErr ==> !s.nonBlock)
  {
    RunInv(ss, es, k);
    assert Next(ss[k], es[k], ss[k + 1]);
    if t in ss[k].submits && ss[k].submits[t].Blocked? { assert !ss[k].NoReaders(); }
  }

  /** A Submit that waits can always be answered: where the pool does not block, by the queue as it stands, and where it
      does, by its context. */
  lemma SubmitNeverStuck(ss: seq<State>, es: seq<Event>, k: nat, t: nat)
    requires Run(Init, Next, ss, es) && k < |ss| && t in ss[k].submits && ss[k].submits[t].Blocked?
    ensures Enabled(ss[k], Send(t)) <==> |ss[k].queue| < ss[k].cap
    ensures ss[k].nonBlock ==> Enabled(ss[k], Send(t)) || Enabled(ss[k], Full(t))
    ensures !ss[k].nonBlock ==> Enabled(ss[k], GiveUp(t))
    ensures forall w | w in ss[k].workers && ss[k].workers[w].Idle? && ss[k].queue == [] :: Enabled(ss[k], HandOff(t, w))
  {
  }

  /** The workers never stop while there is anything to do: as long as a task is queued or unfinished, or a closed pool
      has a worker left, some worker has a step to take. */
  lemma WorkersNeverStuck(ss: seq<State>, es: seq<Event>, k: nat) returns (e: Event)
    requires Run(Init, Next, ss, es) && k < |ss|
    requires var s := ss[k];
             s.queue != [] || (exists w :: w in s.workers && s.workers[w].Running?) || (s.closed && !s.Joined())
    ensures (e.Fetch? || e.Finish? || e.Exit?) && Enabled(ss[k], e)
  {
    RunInv(ss, es, k);
    var s := ss[k];
    if w :| w in s.workers && s.workers[w].Running? {
      e := Finish(w);
    } else if s.queue != [] {
      var w :| w in s.workers;
      assert s.workers[w].Idle?;
      e := Fetch(w);
    } else {
      var w :| w in s.workers && !s.workers[w].Exited?;
      e := Exit(w);
    }
  }

  /** Close goes ahead once no Submit is waiting, closes the queue, and may return nil exactly when every worker is gone. */
  lemma CloseOutcome(ss: seq<State>, es: seq<Event>, k: nat, c: nat)
    requires Run(Init, Next, ss, es) && k < |ss|
    ensures c !in ss[k].closers && (forall t | t in ss[k].submits :: ss[k].submits[t].Returned?) ==>
              Enabled(ss[k], CloseLock(c))
    ensures c in ss[k].closers && ss[k].closers[c].Waiting? ==>
              (Enabled(ss[k], CloseDone(c)) <==> forall w | w in ss[k].workers :: ss[k].workers[w].Exited?)
    ensures k < |es| && es[k] == CloseLock(c) ==> ss[k + 1].closed && ss[k + 1].closes == 1
    ensures k < |es| && ss[k].closed ==> ss[k + 1].closed
  {
    RunInv(ss, es, k);
    if k < |es| { assert Next(ss[k], es[k], ss[k + 1]); }
  }

  class Pool {
    const cap: nat
    const nonBlock: bool
    var queue: seq<nat>
    var closed: bool
    var ran: seq<nat>  // tasks run, in order

    constructor (cap: nat, nonBlock: bool)
      ensures this.cap == cap && this.nonBlock == nonBlock && queue == [] && !closed && ran == []
    {
      this.cap, this.nonBlock := cap, nonBlock;
      queue, closed, ran := [], false, [];
    }

    /** Submit with no worker parked. The blocking form returns once there is room or the context is done;
        `picked` says which ready case the select took when both are. */
    method Submit(task: nat, ctxDone: bool, picked: bool) returns (r: Reply)
      requires nonBlock || closed || |queue| < cap || ctxDone
      modifies this`queue
      ensures closed ==> r == ErrClosed
      ensures !closed && nonBlock ==> r == if |old(queue)| < cap then Nil else ErrQueueFull
      ensures !closed && !nonBlock ==> (r == Nil && |old(queue)| < cap) || (r == CtxErr && ctxDone)
      ensures queue == if r == Nil then old(queue) + [task] else old(queue)
    {
      if closed {
        return ErrClosed;
      }
      if nonBlock {
        if |queue| < cap {
          queue := queue + [task];
          return Nil;
        }
        return ErrQueueFull;
      }
      if |queue| < cap && (picked || !ctxDone) {
        queue := queue + [task];
        return Nil;
      }
      return CtxErr;
    }

    /** The lock-protected part of Close. */
    method CloseQueue() returns (first: bool)
      modifies this`closed
      ensures closed && first == !old(closed)
    {
      first := !closed;
      if !closed {
        closed := true;
      }
    }

    /** A single worker after the queue was closed: it runs every queued task, in order, then exits. */
    method Work()
      requires closed
      modifies this`queue, this`ran
      ensures queue == [] && ran == old(ran) + old(queue)
    {
      while queue != []
        invariant ran + queue == old(ran) + old(queue)
        decreases |queue|
      {
        var task := queue[0];
        assert queue == [task] + queue[1..];
        queue := queue[1..];
        ran := ran + [task];
      }
    }
  }
}
