/** pkg/pubsub: what each call and each step comes to in every run, told by the fields alone. */
module PubSubOutcome {
  import opened Collections
  import opened Runs
  import opened PubSub
  import PubSubSafety
  import PubSubFifo

  // ----- Subscribe -----

  /** Apart from subscription id, channels and registrations are what they were. */
  ghost predicate OthersSame<T>(c: Core<T>, d: Core<T>, id: nat) {
    && (forall j | j in c.subs && j != id :: j in d.subs && d.subs[j] == c.subs[j])
    && (forall j | j in d.subs && j != id :: j in c.subs)
    && (forall t, j | j != id :: d.Registered(t, j) <==> c.Registered(t, j))
  }

  /** On an open broker with a live context, Subscribe registers an empty, open, watched channel, however many others
      there are; otherwise it hands back a channel closed once and registers nothing. Nobody else is affected. */
  lemma SubscribeOutcome<T(!new)>(ss: seq<State<T>>, es: seq<Event<T>>, k: nat, id: nat, topic: string,
                                  accepts: T -> bool, ctx: nat)
    requires Run(Init, Next, ss, es) && k < |es| && es[k] == SubscribeCall(id, topic, accepts, ctx)
    ensures id !in ss[k].core.subs && id in ss[k + 1].core.subs
    ensures var c, d := ss[k].core, ss[k + 1].core;
            var sub := d.subs[id];
            && sub.topic == topic && sub.accepts == accepts && sub.ctx == ctx
            && sub.buf == sub.received == sub.offered == sub.dropped == []
            && (if !c.closed && ctx !in ss[k].cancelled then
                  d.Registered(topic, id) && sub.closes == 0 && sub.watch == Armed
                else sub.closes == 1 && d.registry == c.registry)
            && (forall t | d.Registered(t, id) :: t == topic)
            && OthersSame(c, d, id) && d.closed == c.closed
    ensures ss[k + 1].pubs == ss[k].pubs && ss[k + 1].history == ss[k].history
  {
    PubSubSafety.RunInv(ss, es, k);
    assert Next(ss[k], es[k], ss[k + 1]);
    PubSubSafety.SubscribeMeaning(ss[k].core, id, topic, accepts, ctx, ctx in ss[k].cancelled, |ss[k].history|);
  }

  // ----- removal -----

  /** Channel id was closed once and unregistered, with its contents left to the consumer; nobody else was affected. */
  ghost predicate Removed<T>(c: Core<T>, d: Core<T>, topic: string, id: nat) {
    && id in c.subs && id in d.subs && d.subs[id].closes == 1 && !d.Registered(topic, id)
    && PubSubSafety.SameLogs(c.subs[id], d.subs[id])
    && OthersSame(c, d, id) && d.closed == c.closed
  }

  lemma RemoveRemoves<T>(c: Core<T>, cancelled: set<nat>, topic: string, id: nat)
    requires CoreInv(c, cancelled) && id in c.subs && c.subs[id].topic == topic
    ensures Removed(c, c.Remove(topic, id), topic, id)
  {
    assert SubOk(c, cancelled, id);
    forall t, j | j != id ensures c.Remove(topic, id).Registered(t, j) <==> c.Registered(t, j) {
      PubSubSafety.RemoveRegistered(c, topic, id, t, j);
    }
    PubSubSafety.RemoveRegistered(c, topic, id, topic, id);
  }

  /** The watcher of a done context removes its subscription. */
  lemma WatcherOutcome<T(!new)>(ss: seq<State<T>>, es: seq<Event<T>>, k: nat, id: nat)
    requires Run(Init, Next, ss, es) && k < |es| && es[k] == Watcher(id)
    ensures id in ss[k].core.subs && Removed(ss[k].core, ss[k + 1].core, ss[k].core.subs[id].topic, id)
    ensures ss[k + 1].pubs == ss[k].pubs
  {
    PubSubSafety.RunInv(ss, es, k);
    assert Next(ss[k], es[k], ss[k + 1]);
    WatcherRemoves(ss[k].core, ss[k].cancelled, id);
  }

  lemma WatcherRemoves<T>(c: Core<T>, cancelled: set<nat>, id: nat)
    requires CoreInv(c, cancelled) && id in c.subs
    ensures var topic := c.subs[id].topic;
            var d := c.Remove(topic, id);
            id in d.subs && Removed(c, d.Put(id, d.subs[id].(watch := Spent)), topic, id)
  {
    var topic := c.subs[id].topic;
    RemoveRemoves(c, cancelled, topic, id);
    var d := c.Remove(topic, id);
    var f := d.Put(id, d.subs[id].(watch := Spent));
    assert forall t, j :: f.Registered(t, j) <==> d.Registered(t, j);
  }

  /** Everybody a publisher still has to disconnect lost its message under the Disconnect policy, and a publisher that
      has returned has nobody left to disconnect. */
  ghost predicate Losers<T>(c: Core<T>, pub: Pub<T>) {
    && (forall id | id in pub.disconnect ::
          && c.policy == Disconnect && pub.lost && id in pub.reached
          && id in c.subs && c.subs[id].topic == pub.topic && pub.msg in c.subs[id].dropped)
    && (pub.stage.Done? ==> pub.disconnect == [])
  }

  ghost predicate LosersInv<T>(s: State<T>) { forall p | p in s.pubs :: Losers(s.core, s.pubs[p]) }

  /** What was reported dropped stays reported. */
  lemma DroppedGrows<T>(s: State<T>, e: Event<T>, s': State<T>, id: nat, m: T)
    requires Next(s, e, s') && id in s.core.subs && m in s.core.subs[id].dropped
    ensures id in s'.core.subs && m in s'.core.subs[id].dropped
  {
    if e.SubscribeCall? || e.Watcher? || e.CloseCall? || e.RemoveOne? || e.CancelCtx? {
      PubSubSafety.LockedMoves(s, e, s', id);
    } else if PubSubFifo.Delivers(e) {
      if id == Target(s, e) { assert s'.core.subs[id] == DeliverStep(s, e).0; }
    }
  }

  lemma LosersKept<T>(s: State<T>, e: Event<T>, s': State<T>, pub: Pub<T>)
    requires Next(s, e, s') && Losers(s.core, pub)
    ensures Losers(s'.core, pub)
  {
    PubSubSafety.StepKept(s, e, s');
    forall id | id in pub.disconnect
      ensures id in s'.core.subs && s'.core.subs[id].topic == pub.topic && pub.msg in s'.core.subs[id].dropped
    {
      DroppedGrows(s, e, s', id, pub.msg);
    }
  }

  lemma OfferLosers<T>(s: State<T>, e: Event<T>, s': State<T>)
    requires Next(s, e, s') && e.Offer? && RegistryOk(s.core) && PubOk(s.core, s.pubs[e.p]) && Losers(s.core, s.pubs[e.p])
    ensures Losers(s'.core, s'.pubs[e.p])
  {
    var pub, pub' := s.pubs[e.p], s'.pubs[e.p];
    assert s.core.Registered(pub.topic, e.id);
    LosersKept(s, e, s', pub);
    assert (s'.core.subs[e.id], pub') == DeliverStep(s, e);
    assert pub'.disconnect == pub.disconnect || pub'.disconnect == pub.disconnect + [e.id];
  }

  lemma StepLosers<T>(s: State<T>, e: Event<T>, s': State<T>)
    requires CoreInv(s.core, s.cancelled) && PubsInv(s) && LosersInv(s) && Next(s, e, s')
    ensures LosersInv(s')
  {
    forall p | p in s'.pubs ensures Losers(s'.core, s'.pubs[p]) {
      if p in s.pubs {
        assert Losers(s.core, s.pubs[p]) && PubOk(s.core, s.pubs[p]);
        LosersKept(s, e, s', s.pubs[p]);
        if e.Offer? && e.p == p { OfferLosers(s, e, s'); } else { OwnLosers(s, e, s', p); }
      }
    }
  }

  lemma OwnLosers<T>(s: State<T>, e: Event<T>, s': State<T>, p: nat)
    requires Next(s, e, s') && p in s.pubs && !(e.Offer? && e.p == p) && Losers(s'.core, s.pubs[p])
    ensures p in s'.pubs && Losers(s'.core, s'.pubs[p])
  {
    var x, y := s.pubs[p], s'.pubs[p];
    assert y.topic == x.topic && y.msg == x.msg && x.reached == y.reached && (x.lost ==> y.lost);
    assert forall id | id in y.disconnect :: id in x.disconnect;
  }

  lemma RunLosers<T(!new)>(ss: seq<State<T>>, es: seq<Event<T>>, k: nat)
    requires Run(Init, Next, ss, es) && k < |ss|
    ensures LosersInv(ss[k])
    decreases k
  {
    if k > 0 {
      RunLosers(ss, es, k - 1);
      PubSubSafety.RunInv(ss, es, k - 1);
      assert Next(ss[k - 1], es[k - 1], ss[k - 1 + 1]);
      StepLosers(ss[k - 1], es[k - 1], ss[k]);
    }
  }

  /** A publisher disconnects only a subscription that lost its message, and that removes it. */
  lemma DisconnectOutcome<T(!new)>(ss: seq<State<T>>, es: seq<Event<T>>, k: nat, p: nat)
    requires Run(Init, Next, ss, es) && k < |es| && es[k] == RemoveOne(p)
    ensures p in ss[k].pubs && ss[k].pubs[p].disconnect != []
    ensures var c, pub := ss[k].core, ss[k].pubs[p];
            var id := pub.disconnect[0];
            && c.policy == Disconnect && id in pub.reached
            && Removed(c, ss[k + 1].core, pub.topic, id) && pub.msg in c.subs[id].dropped
            && p in ss[k + 1].pubs && ss[k + 1].pubs[p].disconnect == pub.disconnect[1..]
  {
    PubSubSafety.RunInv(ss, es, k);
    RunLosers(ss, es, k);
    assert Next(ss[k], es[k], ss[k + 1]);
    var id := ss[k].pubs[p].disconnect[0];
    assert Losers(ss[k].core, ss[k].pubs[p]) && id in ss[k].pubs[p].disconnect;
    RemoveRemoves(ss[k].core, ss[k].cancelled, ss[k].pubs[p].topic, id);
  }

  /** The subscription is to be disconnected by p, or no longer registered. */
  ghost predicate Doomed<T>(s: State<T>, p: nat, id: nat, topic: string) {
    && p in s.pubs && s.pubs[p].topic == topic && id in s.core.subs && s.core.subs[id].topic == topic
    && (id in s.pubs[p].disconnect || !s.core.Registered(topic, id))
  }

  /** A subscription that is not registered never is again. */
  lemma StaysUnregistered<T>(s: State<T>, e: Event<T>, s': State<T>, id: nat, topic: string)
    requires RegistryOk(s.core) && Next(s, e, s') && id in s.core.subs && !s.core.Registered(topic, id)
    ensures !s'.core.Registered(topic, id)
  {
    if e.RemoveOne? {
      PubSubSafety.RemoveRegistered(s.core, s.pubs[e.p].topic, s.pubs[e.p].disconnect[0], topic, id);
    } else if e.Watcher? {
      PubSubSafety.RemoveRegistered(s.core, s.core.subs[e.id].topic, e.id, topic, id);
    }
  }

  /** A subscription leaves the list only by being removed. */
  lemma ListKept<T>(s: State<T>, e: Event<T>, s': State<T>, p: nat, id: nat)
    requires Next(s, e, s') && p in s.pubs && id in s.pubs[p].disconnect
    ensures p in s'.pubs && s'.pubs[p].topic == s.pubs[p].topic
    ensures id in s'.pubs[p].disconnect
            || (e == RemoveOne(p) && id == s.pubs[p].disconnect[0] && s'.core == s.core.Remove(s.pubs[p].topic, id))
  {
  }

  lemma StepDoomed<T(!new)>(ss: seq<State<T>>, es: seq<Event<T>>, k: nat, p: nat, id: nat, topic: string)
    requires Run(Init, Next, ss, es) && k < |es| && Doomed(ss[k], p, id, topic)
    ensures Doomed(ss[k + 1], p, id, topic)
  {
    PubSubSafety.RunInv(ss, es, k);
    StepFixed(ss, es, k, p);
    PubSubSafety.StepKept(ss[k], es[k], ss[k + 1]);
    if ss[k].core.Registered(topic, id) {
      ListKept(ss[k], es[k], ss[k + 1], p, id);
      PubSubSafety.RemoveRegistered(ss[k].core, topic, id, topic, id);
    } else {
      StaysUnregistered(ss[k], es[k], ss[k + 1], id, topic);
    }
  }

  /** Once a Publish under the Disconnect policy has returned, no subscription that could not take its message is
      registered any more, and its channel is closed. */
  lemma DisconnectRemoves<T(!new)>(
      ss: seq<State<T>>, es: seq<Event<T>>, j: nat, k: nat, p: nat, id: nat, parked: bool)
    requires Run(Init, Next, ss, es) && j < k < |ss| && es[j] == Offer(p, id, parked)
    requires ss[j].core.policy == Disconnect && id in ss[j].core.subs
    requires |ss[j].core.subs[id].buf| >= ss[j].core.cap && !(parked && ss[j].core.subs[id].buf == [])
    requires p in ss[k].pubs && ss[k].pubs[p].stage.Done?
    ensures id in ss[k].core.subs && ss[k].core.subs[id].closes == 1
    ensures !ss[k].core.Registered(ss[k].core.subs[id].topic, id)
  {
    PubSubSafety.RunInv(ss, es, j);
    assert Next(ss[j], es[j], ss[j + 1]);
    var topic := ss[j].pubs[p].topic;
    assert PubOk(ss[j].core, ss[j].pubs[p]) && ss[j].core.Registered(topic, id);
    assert ss[j + 1].pubs[p].disconnect == ss[j].pubs[p].disconnect + [id];
    forall i | j + 1 <= i < k && Doomed(ss[i], p, id, topic) ensures Doomed(ss[i + 1], p, id, topic) {
      StepDoomed(ss, es, i, p, id, topic);
    }
    FromThenOn(s => Doomed(s, p, id, topic), ss, j + 1, k);
    RunLosers(ss, es, k);
    assert Losers(ss[k].core, ss[k].pubs[p]);
    PubSubSafety.RunInv(ss, es, k);
    assert SubOk(ss[k].core, ss[k].cancelled, id);
  }

  // ----- the three selects of deliver -----

  /** Publisher p and subscription id moved from one record to the next, and nothing else did. */
  ghost predicate Moved<T>(s: State<T>, s': State<T>, p: nat, id: nat) {
    && p in s.pubs && p in s'.pubs && s'.pubs == s.pubs[p := s'.pubs[p]]
    && id in s.core.subs && id in s'.core.subs && s'.core == s.core.Put(id, s'.core.subs[id])
  }

  /** A try-send of m: to the receiver that is parked on an empty channel, or into free room. */
  ghost predicate Sent<T>(a: Sub<T>, b: Sub<T>, m: T, parked: bool) {
    if parked && a.buf == [] then b.received == a.received + [m] && b.buf == a.buf
    else b.received == a.received && b.buf == a.buf + [m]
  }

  ghost predicate CanTake<T>(a: Sub<T>, cap: nat, parked: bool) { (parked && a.buf == []) || |a.buf| < cap }

  /** The first select: sends if it can; otherwise DropOldest goes on to evict, and the other policies drop the message
      and report it, Disconnect marking the subscription. */
  lemma OfferOutcome<T(!new)>(ss: seq<State<T>>, es: seq<Event<T>>, k: nat, p: nat, id: nat, parked: bool)
    requires Run(Init, Next, ss, es) && k < |es| && es[k] == Offer(p, id, parked)
    ensures Moved(ss[k], ss[k + 1], p, id)
    ensures var c, a, b, m := ss[k].core, ss[k].core.subs[id], ss[k + 1].core.subs[id], ss[k].pubs[p].msg;
            var x, y := ss[k].pubs[p], ss[k + 1].pubs[p];
            && b.offered == a.offered + [m] && y.reached == x.reached + {id} && y.todo == x.todo - {id}
            && if CanTake(a, c.cap, parked) then
                 Sent(a, b, m, parked) && b.dropped == a.dropped && y.stage == Scanning && y.lost == x.lost
               else
                 && b.received == a.received && b.buf == a.buf
                 && if c.policy == DropOldest then b.dropped == a.dropped && y.stage == Refused(id)
                    else
                      && b.dropped == a.dropped + [m] && y.stage == Scanning && y.lost && y.reports == x.reports + 1
                      && y.disconnect == if c.policy == Disconnect then x.disconnect + [id] else x.disconnect
  {
    assert Next(ss[k], es[k], ss[k + 1]);
  }

  /** The second select: discards the oldest buffered message and reports it, if one is still there. */
  lemma MakeRoomOutcome<T(!new)>(ss: seq<State<T>>, es: seq<Event<T>>, k: nat, p: nat)
    requires Run(Init, Next, ss, es) && k < |es| && es[k] == MakeRoom(p)
    ensures p in ss[k].pubs && ss[k].pubs[p].stage.Refused?
    ensures var id := ss[k].pubs[p].stage.id;
            && Moved(ss[k], ss[k + 1], p, id)
            && var a, b, x, y := ss[k].core.subs[id], ss[k + 1].core.subs[id], ss[k].pubs[p], ss[k + 1].pubs[p];
               && b.received == a.received && b.offered == a.offered
               && (if a.buf == [] then b.buf == [] && b.dropped == a.dropped && y.reports == x.reports
                   else b.buf == a.buf[1..] && b.dropped == a.dropped + [a.buf[0]] && y.reports == x.reports + 1)
               && y.stage == Making(id, a.buf != [])
  {
    assert Next(ss[k], es[k], ss[k + 1]);
  }

  /** The third select: sends if it can, and otherwise drops the message and reports it. */
  lemma AgainOutcome<T(!new)>(ss: seq<State<T>>, es: seq<Event<T>>, k: nat, p: nat, parked: bool)
    requires Run(Init, Next, ss, es) && k < |es| && es[k] == Again(p, parked)
    ensures p in ss[k].pubs && ss[k].pubs[p].stage.Making?
    ensures var id := ss[k].pubs[p].stage.id;
            && Moved(ss[k], ss[k + 1], p, id)
            && var a, b, x, y := ss[k].core.subs[id], ss[k + 1].core.subs[id], ss[k].pubs[p], ss[k + 1].pubs[p];
               && b.offered == a.offered && y.stage == Scanning
               && if CanTake(a, ss[k].core.cap, parked) then
                    Sent(a, b, x.msg, parked) && b.dropped == a.dropped && y.reports == x.reports
                    && (y.lost <==> x.lost || x.stage.evicted)
                  else b.received == a.received && b.buf == a.buf && b.dropped == a.dropped + [x.msg]
                       && y.lost && y.reports == x.reports + 1
  {
    assert Next(ss[k], es[k], ss[k + 1]);
  }

  // ----- Publish -----

  /** What a Publish was called with, and whom it found registered, stay what they were; a call that returned stays so. */
  lemma {:induction false} RecordFixed<T(!new)>(ss: seq<State<T>>, es: seq<Event<T>>, j: nat, k: nat, p: nat)
    requires Run(Init, Next, ss, es) && j <= k < |ss| && p in ss[j].pubs
    ensures p in ss[k].pubs && ss[j].core.subs.Keys <= ss[k].core.subs.Keys
    ensures var x, y := ss[j].pubs[p], ss[k].pubs[p];
            y.topic == x.topic && y.msg == x.msg && y.audience == x.audience && (x.stage.Done? ==> y == x)
    ensures forall id | id in ss[j].core.subs :: ss[k].core.subs[id].accepts == ss[j].core.subs[id].accepts
    decreases k
  {
    if j < k {
      RecordFixed(ss, es, j, k - 1, p);
      StepFixed(ss, es, k - 1, p);
    }
  }

  lemma StepFixed<T(!new)>(ss: seq<State<T>>, es: seq<Event<T>>, k: nat, p: nat)
    requires Run(Init, Next, ss, es) && k < |es| && p in ss[k].pubs
    ensures p in ss[k + 1].pubs && ss[k].core.subs.Keys <= ss[k + 1].core.subs.Keys
    ensures var x, y := ss[k].pubs[p], ss[k + 1].pubs[p];
            y.topic == x.topic && y.msg == x.msg && y.audience == x.audience && (x.stage.Done? ==> y == x)
    ensures forall id | id in ss[k].core.subs :: ss[k + 1].core.subs[id].accepts == ss[k].core.subs[id].accepts
  {
    assert Next(ss[k], es[k], ss[k + 1]);
    PubSubSafety.StepKept(ss[k], es[k], ss[k + 1]);
  }

  /** A Publish whose context was done returns its error, one that found the broker closed ErrClosed, and neither reaches
      anybody. Any other, however many publishers are under way, reaches by the time it returns exactly the subscriptions
      that were registered on its topic when it was called and whose filter accepts the message. */
  lemma PublishReaches<T(!new)>(ss: seq<State<T>>, es: seq<Event<T>>, j: nat, k: nat, p: nat, topic: string, m: T,
                                ctxDone: bool)
    requires Run(Init, Next, ss, es) && j < k < |ss| && es[j] == Begin(p, topic, m, ctxDone)
    ensures p in ss[k].pubs && ss[k].pubs[p].topic == topic && ss[k].pubs[p].msg == m
    ensures ctxDone || ss[j].core.closed ==>
              ss[k].pubs[p].reached == {} && ss[k].pubs[p].stage == Done(if ctxDone then CtxErr else ErrClosed)
    ensures !ctxDone && !ss[j].core.closed && ss[k].pubs[p].stage.Done? ==>
              && ss[k].pubs[p].reached
                 == (set id | id in ss[j].core.subs && ss[j].core.Registered(topic, id) && ss[j].core.subs[id].accepts(m))
              && ss[k].pubs[p].stage.reply == if ss[k].pubs[p].reports > 0 then ErrSlowSubscriber else Nil
  {
    PubSubSafety.RunInv(ss, es, j);
    BeginRecord(ss, es, j, p, topic, m, ctxDone);
    RecordFixed(ss, es, j + 1, k, p);
    if !ctxDone && !ss[j].core.closed && ss[k].pubs[p].stage.Done? {
      PubSubSafety.PublishOutcome(ss, es, k, p);
      forall i | j + 1 <= i < k && ReplyOk(ss[i], p) ensures ReplyOk(ss[i + 1], p) { StepReply(ss, es, i, p); }
      FromThenOn(s => ReplyOk(s, p), ss, j + 1, k);
      assert RegistryOk(ss[j].core);
      forall id ensures id in ss[k].pubs[p].audience <==> ss[j].core.Registered(topic, id) { }
    }
  }

  lemma BeginRecord<T(!new)>(ss: seq<State<T>>, es: seq<Event<T>>, j: nat, p: nat, topic: string, m: T, ctxDone: bool)
    requires Run(Init, Next, ss, es) && j < |es| && es[j] == Begin(p, topic, m, ctxDone)
    ensures p in ss[j + 1].pubs && ss[j + 1].core == ss[j].core
    ensures var pub := ss[j + 1].pubs[p];
            && pub.topic == topic && pub.msg == m && pub.reached == {}
            && (if ctxDone || ss[j].core.closed then pub.stage == Done(if ctxDone then CtxErr else ErrClosed)
                else pub.stage == Scanning && forall id :: id in pub.audience <==> ss[j].core.Registered(topic, id))
  {
    assert Next(ss[j], es[j], ss[j + 1]);
  }

  /** A publication that took the read lock has not returned, or returned nil or ErrSlowSubscriber. */
  ghost predicate ReplyOk<T>(s: State<T>, p: nat) {
    p in s.pubs && (s.pubs[p].stage.Done? ==> s.pubs[p].stage.reply in {Nil, ErrSlowSubscriber})
  }

  lemma StepReply<T(!new)>(ss: seq<State<T>>, es: seq<Event<T>>, k: nat, p: nat)
    requires Run(Init, Next, ss, es) && k < |es| && ReplyOk(ss[k], p)
    ensures ReplyOk(ss[k + 1], p)
  {
    assert Next(ss[k], es[k], ss[k + 1]);
  }

  // ----- Close -----

  /** Nothing is registered any more, every channel is closed. */
  ghost predicate Down<T>(s: State<T>) {
    s.core.closed && s.core.registry == map[] && forall id | id in s.core.subs :: s.core.subs[id].closes == 1
  }

  lemma StepClosed<T(!new)>(ss: seq<State<T>>, es: seq<Event<T>>, k: nat)
    requires Run(Init, Next, ss, es) && k < |es|
    ensures ss[k].core.closed || es[k] == CloseCall ==> ss[k + 1].core.closed
  {
    assert Next(ss[k], es[k], ss[k + 1]);
  }

  /** Close is for good: from then on nothing is registered and every channel, old or new, is closed; and every later
      Publish returns ErrClosed, or its context's error, having reached nobody. */
  lemma CloseIsFinal<T(!new)>(ss: seq<State<T>>, es: seq<Event<T>>, j: nat, k: nat)
    requires Run(Init, Next, ss, es) && j < k < |ss| && es[j] == CloseCall
    ensures Down(ss[k])
    ensures k < |es| && es[k].Begin? ==>
              && es[k].p in ss[k + 1].pubs && ss[k + 1].pubs[es[k].p].reached == {}
              && ss[k + 1].pubs[es[k].p].stage == Done(if es[k].ctxDone then CtxErr else ErrClosed)
  {
    StepClosed(ss, es, j);
    forall i | j + 1 <= i < k && ss[i].core.closed ensures ss[i + 1].core.closed { StepClosed(ss, es, i); }
    FromThenOn((s: State<T>) => s.core.closed, ss, j + 1, k);
    PubSubSafety.RunInv(ss, es, k);
    forall id | id in ss[k].core.subs ensures ss[k].core.subs[id].closes == 1 {
      assert SubOk(ss[k].core, ss[k].cancelled, id);
    }
    if k < |es| && es[k].Begin? { BeginRecord(ss, es, k, es[k].p, es[k].topic, es[k].msg, es[k].ctxDone); }
  }

  // ----- progress -----

  /** No publisher is ever stuck: one that has not returned has a step of its own to take, except that a removal waits
      for the publishers under the read lock, which have steps of theirs. */
  lemma PublisherCanStep<T(!new)>(ss: seq<State<T>>, es: seq<Event<T>>, k: nat, p: nat) returns (q: nat, e: Event<T>)
    requires Run(Init, Next, ss, es) && k < |ss| && p in ss[k].pubs && !ss[k].pubs[p].stage.Done?
    ensures q in ss[k].pubs && Enabled(ss[k], e)
    ensures e.Skip? || e.Offer? || e.MakeRoom? || e.Again? || e.Unlock? || e.RemoveOne? || e.Return?
    ensures e.p == q && (q == p || (ss[k].pubs[p].stage.Leaving? && ss[k].pubs[q].HoldsLock()))
  {
    PubSubSafety.RunInv(ss, es, k);
    var s := ss[k];
    q := p;
    if s.pubs[p].stage.Leaving? && !s.NoReaders() { q :| q in s.pubs && s.pubs[q].HoldsLock(); }
    var pub := s.pubs[q];
    assert PubOk(s.core, pub);
    match pub.stage
    case Scanning =>
      if pub.todo == {} {
        e := Unlock(q);
      } else {
        var id :| id in pub.todo;
        PubSubSafety.Touchable(s, q, id);
        e := if s.core.subs[id].accepts(pub.msg) then Offer(q, id, false) else Skip(q, id);
      }
    case Refused(id) => PubSubSafety.Touchable(s, q, id); e := MakeRoom(q);
    case Making(id, _) => PubSubSafety.Touchable(s, q, id); e := Again(q, false);
    case Leaving => e := if pub.disconnect == [] then Return(q) else RemoveOne(q);
  }

  /** Publishers share the read lock: a new one can always begin, whoever is under way; a consumer can receive whenever
      something is buffered; and those who need the write lock can go ahead whenever no publisher is under the read lock. */
  lemma WhoMayGo<T(!new)>(s: State<T>, p: nat, id: nat, topic: string, m: T, ctxDone: bool, accepts: T -> bool, ctx: nat)
    ensures p !in s.pubs ==> Enabled(s, Begin(p, topic, m, ctxDone))
    ensures id in s.core.subs && s.core.subs[id].buf != [] ==> Enabled(s, Consume(id))
    ensures (forall q | q in s.pubs :: !s.pubs[q].HoldsLock()) ==>
              && Enabled(s, CloseCall)
              && (id !in s.core.subs ==> Enabled(s, SubscribeCall(id, topic, accepts, ctx)))
              && (id in s.core.subs && s.core.subs[id].watch == Fired ==> Enabled(s, Watcher(id)))
  {
  }
}
