/** pkg/pubsub: the broker as a transition system. A publisher's fan-out is cut at the three selects
    of deliver; consumers, context watchers, other publishers, Subscribe and Close may act between
    any two steps, the write-locked ones only while no publisher holds the read lock. */
module PubSub {
  datatype Policy = DropNewest | DropOldest | Disconnect

  /** The context watcher of a subscription: installed, its callback pending, or of no further effect. */
  datatype Watch = Armed | Fired | Spent

  datatype Reply = Nil | ErrSlowSubscriber | ErrClosed | CtxErr

  /** One subscription and its channel. A nil filter accepts everything. `closes` counts the closes of
      the channel and `since` the messages published before the subscription; `offered`, `received`
      and `dropped` log what deliver was called with, what the consumer got and what was reported to
      the drop handler on this subscription's account. */
  datatype Sub<!T> = Sub(topic: string, accepts: T -> bool, ctx: nat, buf: seq<T>, closes: nat, watch: Watch,
                        since: nat, offered: seq<T>, received: seq<T>, dropped: seq<T>)
  {
    /** stopWatch followed by close. */
    function Shut(): Sub<T> {
      this.(closes := closes + 1, watch := if watch == Armed then Spent else watch)
    }

    /** A try-send succeeds when the buffer has room or, with nothing buffered, a receiver is parked. */
    predicate Takes(cap: nat, parked: bool) { (parked && buf == []) || |buf| < cap }

    function Take(m: T, parked: bool): Sub<T> {
      if parked && buf == [] then this.(received := received + [m]) else this.(buf := buf + [m])
    }

    function Lose(m: T): Sub<T> { this.(dropped := dropped + [m]) }

    function Evict(): Sub<T> {
      if buf == [] then this else this.(buf := buf[1..], dropped := dropped + [buf[0]])
    }

    function Receive(): Sub<T>
      requires buf != []
    {
      this.(buf := buf[1..], received := received + [buf[0]])
    }
  }

  /** What the broker's mutex and channels guard. */
  datatype Core<!T> = Core(cap: nat, policy: Policy, subs: map<nat, Sub<T>>, registry: map<string, set<nat>>, closed: bool)
  {
    predicate Registered(topic: string, id: nat) { topic in registry && id in registry[topic] }

    function Audience(topic: string): set<nat> { if topic in registry then registry[topic] else {} }

    function Put(id: nat, sub: Sub<T>): Core<T> { this.(subs := subs[id := sub]) }

    function Subscribe(id: nat, topic: string, accepts: T -> bool, ctx: nat, ctxDone: bool, since: nat): Core<T> {
      if closed || ctxDone then
        Put(id, Sub(topic, accepts, ctx, [], 1, Spent, since, [], [], []))
      else
        Put(id, Sub(topic, accepts, ctx, [], 0, Armed, since, [], [], []))
          .(registry := registry[topic := Audience(topic) + {id}])
    }

    function Remove(topic: string, id: nat): Core<T> {
      if !Registered(topic, id) || id !in subs then this
      else
        var rest := registry[topic] - {id};
        Put(id, subs[id].Shut()).(registry := if rest == {} then registry - {topic} else registry[topic := rest])
    }

    predicate Listed(id: nat) { exists t :: t in registry && id in registry[t] }

    function Close(): Core<T> {
      if closed then this
      else this.(closed := true, registry := map[],
                 subs := map id | id in subs :: if Listed(id) then subs[id].Shut() else subs[id])
    }
  }

  /** Where a publisher stands: scanning the audience under the read lock, refused by the first select
      of deliver, between the eviction and the second send, removing what it disconnected, or done. */
  datatype Stage = Scanning | Refused(id: nat) | Making(id: nat, evicted: bool) | Leaving | Done(reply: Reply)

  /** A Publish call. `audience` is the topic's subscriptions when the read lock was taken, `reached` the
      ones deliver was called for, `reports` the drops this call reported. */
  datatype Pub<!T> = Pub(topic: string, msg: T, todo: set<nat>, stage: Stage, lost: bool, disconnect: seq<nat>,
                        audience: set<nat>, reached: set<nat>, reports: nat)
  {
    predicate HoldsLock() { stage.Scanning? || stage.Refused? || stage.Making? }
    predicate Holds(id: nat) { (stage.Refused? || stage.Making?) && stage.id == id }
  }

  /** `history` lists the publications that found the broker open, in read-lock order; `fault` is raised
      by any send on, or eviction from, a closed channel. */
  datatype State<!T> = State(core: Core<T>, cancelled: set<nat>, pubs: map<nat, Pub<T>>, history: seq<(string, T)>, fault: bool)
  {
    predicate NoReaders() { forall p | p in pubs :: !pubs[p].HoldsLock() }
  }

  datatype Event<!T> =
    | SubscribeCall(id: nat, topic: string, accepts: T -> bool, ctx: nat)
    | CancelCtx(ctx: nat)
    | Watcher(id: nat)
    | CloseCall
    | Consume(id: nat)
    | Begin(p: nat, topic: string, msg: T, ctxDone: bool)
    | Skip(p: nat, id: nat)
    | Offer(p: nat, id: nat, parked: bool)
    | MakeRoom(p: nat)
    | Again(p: nat, parked: bool)
    | Unlock(p: nat)
    | RemoveOne(p: nat)
    | Return(p: nat)

  ghost predicate Init<T>(s: State<T>) {
    && s.core.subs == map[] && s.core.registry == map[] && !s.core.closed
    && s.cancelled == {} && s.pubs == map[] && s.history == [] && !s.fault
  }

  predicate Enabled<T>(s: State<T>, e: Event<T>) {
    match e
    case SubscribeCall(id, _, _, _) => id !in s.core.subs && s.NoReaders()
    case CancelCtx(_) => true
    case Watcher(id) => id in s.core.subs && s.core.subs[id].watch == Fired && s.NoReaders()
    case CloseCall => s.NoReaders()
    case Consume(id) => id in s.core.subs && s.core.subs[id].buf != []
    case Begin(p, _, _, _) => p !in s.pubs
    case Skip(p, id) =>
      && p in s.pubs && s.pubs[p].stage.Scanning? && id in s.pubs[p].todo
      && id in s.core.subs && !s.core.subs[id].accepts(s.pubs[p].msg)
    case Offer(p, id, _) =>
      && p in s.pubs && s.pubs[p].stage.Scanning? && id in s.pubs[p].todo
      && id in s.core.subs && s.core.subs[id].accepts(s.pubs[p].msg)
    case MakeRoom(p) => p in s.pubs && s.pubs[p].stage.Refused? && s.pubs[p].stage.id in s.core.subs
    case Again(p, _) => p in s.pubs && s.pubs[p].stage.Making? && s.pubs[p].stage.id in s.core.subs
    case Unlock(p) => p in s.pubs && s.pubs[p].stage.Scanning? && s.pubs[p].todo == {}
    case RemoveOne(p) => p in s.pubs && s.pubs[p].stage.Leaving? && s.pubs[p].disconnect != [] && s.NoReaders()
    case Return(p) => p in s.pubs && s.pubs[p].stage.Leaving? && s.pubs[p].disconnect == []
  }

  function Fire<T>(subs: map<nat, Sub<T>>, ctx: nat): map<nat, Sub<T>> {
    map id | id in subs ::
      if subs[id].ctx == ctx && subs[id].watch == Armed then subs[id].(watch := Fired) else subs[id]
  }

  /** The first select of deliver, and what follows it without another select: the subscription and the
      publisher afterwards. */
  function FirstSend<T>(cap: nat, policy: Policy, id: nat, sub0: Sub<T>, pub0: Pub<T>, parked: bool): (Sub<T>, Pub<T>) {
    var pub := pub0.(todo := pub0.todo - {id}, reached := pub0.reached + {id});
    var sub := sub0.(offered := sub0.offered + [pub.msg]);
    if sub.Takes(cap, parked) then (sub.Take(pub.msg, parked), pub)
    else if policy == DropOldest then (sub, pub.(stage := Refused(id)))
    else (sub.Lose(pub.msg),
          pub.(lost := true, reports := pub.reports + 1,
               disconnect := if policy == Disconnect then pub.disconnect + [id] else pub.disconnect))
  }

  /** The second select: discard the oldest buffered message, if there still is one. */
  function MakeSpace<T>(id: nat, sub: Sub<T>, pub: Pub<T>): (Sub<T>, Pub<T>) {
    var evicted := sub.buf != [];
    (sub.Evict(), pub.(stage := Making(id, evicted), reports := if evicted then pub.reports + 1 else pub.reports))
  }

  /** The third select: send again, or give the message up. */
  function SecondSend<T>(cap: nat, sub: Sub<T>, pub: Pub<T>, parked: bool): (Sub<T>, Pub<T>)
    requires pub.stage.Making?
  {
    if sub.Takes(cap, parked) then
      (sub.Take(pub.msg, parked), pub.(stage := Scanning, lost := pub.lost || pub.stage.evicted))
    else
      (sub.Lose(pub.msg), pub.(stage := Scanning, lost := true, reports := pub.reports + 1))
  }

  /** The subscription a step of deliver deals with. */
  function Target<T>(s: State<T>, e: Event<T>): nat
    requires Enabled(s, e) && (e.Offer? || e.MakeRoom? || e.Again?)
  {
    if e.Offer? then e.id else s.pubs[e.p].stage.id
  }

  function DeliverStep<T>(s: State<T>, e: Event<T>): (Sub<T>, Pub<T>)
    requires Enabled(s, e) && (e.Offer? || e.MakeRoom? || e.Again?)
  {
    var id := Target(s, e);
    var sub, pub := s.core.subs[id], s.pubs[e.p];
    if e.Offer? then FirstSend(s.core.cap, s.core.policy, id, sub, pub, e.parked)
    else if e.MakeRoom? then MakeSpace(id, sub, pub)
    else SecondSend(s.core.cap, sub, pub, e.parked)
  }

  function ApplyDeliver<T>(s: State<T>, e: Event<T>): State<T>
    requires Enabled(s, e) && (e.Offer? || e.MakeRoom? || e.Again?)
  {
    var id := Target(s, e);
    var (sub, pub) := DeliverStep(s, e);
    s.(core := s.core.Put(id, sub), pubs := s.pubs[e.p := pub], fault := s.fault || s.core.subs[id].closes > 0)
  }

  function Apply<T>(s: State<T>, e: Event<T>): State<T>
    requires Enabled(s, e)
  {
    match e
    case SubscribeCall(id, topic, accepts, ctx) =>
      s.(core := s.core.Subscribe(id, topic, accepts, ctx, ctx in s.cancelled, |s.history|))
    case CancelCtx(ctx) =>
      s.(cancelled := s.cancelled + {ctx}, core := s.core.(subs := Fire(s.core.subs, ctx)))
    case Watcher(id) =>
      var c := s.core.Remove(s.core.subs[id].topic, id);
      s.(core := c.Put(id, c.subs[id].(watch := Spent)))
    case CloseCall => s.(core := s.core.Close())
    case Consume(id) => s.(core := s.core.Put(id, s.core.subs[id].Receive()))
    case Begin(p, topic, msg, ctxDone) =>
      if ctxDone then s.(pubs := s.pubs[p := Pub(topic, msg, {}, Done(CtxErr), false, [], {}, {}, 0)])
      else if s.core.closed then s.(pubs := s.pubs[p := Pub(topic, msg, {}, Done(ErrClosed), false, [], {}, {}, 0)])
      else
        var a := s.core.Audience(topic);
        s.(pubs := s.pubs[p := Pub(topic, msg, a, Scanning, false, [], a, {}, 0)], history := s.history + [(topic, msg)])
    case Skip(p, id) => s.(pubs := s.pubs[p := s.pubs[p].(todo := s.pubs[p].todo - {id})])
    case Offer(_, _, _) => ApplyDeliver(s, e)
    case MakeRoom(_) => ApplyDeliver(s, e)
    case Again(_, _) => ApplyDeliver(s, e)
    case Unlock(p) => s.(pubs := s.pubs[p := s.pubs[p].(stage := Leaving)])
    case RemoveOne(p) =>
      var pub := s.pubs[p];
      s.(core := s.core.Remove(pub.topic, pub.disconnect[0]), pubs := s.pubs[p := pub.(disconnect := pub.disconnect[1..])])
    case Return(p) =>
      var pub := s.pubs[p];
      s.(pubs := s.pubs[p := pub.(stage := Done(if pub.lost then ErrSlowSubscriber else Nil))])
  }

  ghost predicate Next<T>(s: State<T>, e: Event<T>, s': State<T>) {
    Enabled(s, e) && s' == Apply(s, e)
  }

  // ----- the registry and the channels -----

  ghost predicate SubOk<T>(c: Core<T>, cancelled: set<nat>, id: nat)
    requires id in c.subs
  {
    var sub := c.subs[id];
    && |sub.buf| <= c.cap
    && sub.closes <= 1
    && (sub.closes == 0 <==> c.Registered(sub.topic, id))
    && (if sub.closes == 0 then sub.watch == (if sub.ctx in cancelled then Fired else Armed) else sub.watch != Armed)
  }

  ghost predicate RegistryOk<T>(c: Core<T>) {
    && (forall t | t in c.registry :: c.registry[t] != {})
    && (forall t, id | t in c.registry && id in c.registry[t] :: id in c.subs && c.subs[id].topic == t)
    && (c.closed ==> c.registry == map[])
  }

  ghost predicate CoreInv<T>(c: Core<T>, cancelled: set<nat>) {
    RegistryOk(c) && forall id | id in c.subs :: SubOk(c, cancelled, id)
  }

  // ----- the publishers -----

  ghost predicate PubOk<T>(c: Core<T>, pub: Pub<T>) {
    && pub.todo <= pub.audience && pub.reached <= pub.audience && pub.audience <= c.subs.Keys
    && (forall id | id in pub.audience :: id in pub.reached <==> id !in pub.todo && c.subs[id].accepts(pub.msg))
    && (pub.HoldsLock() ==> forall id | id in pub.audience :: c.Registered(pub.topic, id))
    && (forall id | pub.Holds(id) :: id in pub.reached)
    && (!pub.HoldsLock() ==> pub.todo == {})
    && (c.policy != Disconnect ==> pub.disconnect == [])
    && match pub.stage
       case Making(_, evicted) => pub.reports > 0 <==> pub.lost || evicted
       case Done(reply) => pub.reports > 0 <==> reply == ErrSlowSubscriber
       case _ => pub.reports > 0 <==> pub.lost
  }

  ghost predicate PubsInv<T>(s: State<T>) {
    forall p | p in s.pubs :: PubOk(s.core, s.pubs[p])
  }

  // ----- accounting -----

  /** Publishers of m in the middle of delivering it to subscription id. */
  ghost function Holding<T(!new)>(pubs: map<nat, Pub<T>>, id: nat, m: T): set<nat> {
    set p | p in pubs && pubs[p].msg == m && pubs[p].Holds(id)
  }

  /** Publishers of m whose fan-out has reached subscription id. */
  ghost function Reaching<T(!new)>(pubs: map<nat, Pub<T>>, id: nat, m: T): set<nat> {
    set p | p in pubs && pubs[p].msg == m && id in pubs[p].reached
  }

  ghost predicate Balanced<T(!new)>(s: State<T>, id: nat, m: T)
    requires id in s.core.subs
  {
    var sub := s.core.subs[id];
    && multiset(sub.offered)[m] == |Reaching(s.pubs, id, m)|
    && multiset(sub.offered)[m]
       == multiset(sub.received)[m] + multiset(sub.buf)[m] + multiset(sub.dropped)[m] + |Holding(s.pubs, id, m)|
  }

  ghost predicate Accounted<T(!new)>(s: State<T>) {
    forall id, m | id in s.core.subs :: Balanced(s, id, m)
  }

  ghost predicate Inv<T(!new)>(s: State<T>) {
    CoreInv(s.core, s.cancelled) && PubsInv(s) && Accounted(s) && !s.fault
  }
}
