/** pkg/pubsub: what every step of the broker keeps, and what that means for every run. */
module PubSubSafety {
  import opened Collections
  import opened Runs
  import opened PubSub

  // ----- the registry and the channels -----

  /** Only the contents of the channel changed. */
  ghost predicate SameIdentity<T>(a: Sub<T>, b: Sub<T>) {
    a.topic == b.topic && a.accepts == b.accepts && a.ctx == b.ctx && a.closes == b.closes && a.watch == b.watch
    && a.since == b.since
  }

  lemma PutInv<T>(c: Core<T>, cancelled: set<nat>, id: nat, sub: Sub<T>)
    requires CoreInv(c, cancelled) && id in c.subs && SameIdentity(c.subs[id], sub) && |sub.buf| <= c.cap
    ensures CoreInv(c.Put(id, sub), cancelled)
  {
    var d := c.Put(id, sub);
    forall j | j in d.subs ensures SubOk(d, cancelled, j) { assert SubOk(c, cancelled, j); }
  }

  lemma SubscribeInv<T>(c: Core<T>, cancelled: set<nat>, id: nat, topic: string, accepts: T -> bool, ctx: nat, since: nat)
    requires CoreInv(c, cancelled) && id !in c.subs
    ensures CoreInv(c.Subscribe(id, topic, accepts, ctx, ctx in cancelled, since), cancelled)
  {
    var d := c.Subscribe(id, topic, accepts, ctx, ctx in cancelled, since);
    assert !c.Registered(topic, id);
    forall j | j in d.subs ensures SubOk(d, cancelled, j) {
      if j != id { assert SubOk(c, cancelled, j); }
    }
  }

  /** Subscribe on an open broker with a live context adds one registration and one open, watched, empty channel; otherwise
      a channel that is closed and no registration. Everything else is as it was. */
  lemma SubscribeMeaning<T>(c: Core<T>, id: nat, topic: string, accepts: T -> bool, ctx: nat, ctxDone: bool, since: nat)
    requires id !in c.subs && RegistryOk(c)
    ensures var d := c.Subscribe(id, topic, accepts, ctx, ctxDone, since);
            && d.closed == c.closed && d.cap == c.cap && d.policy == c.policy
            && d.subs.Keys == c.subs.Keys + {id} && (forall j | j in c.subs :: d.subs[j] == c.subs[j])
            && (forall t, j | j != id :: d.Registered(t, j) <==> c.Registered(t, j))
            && (forall t | d.Registered(t, id) :: t == topic)
            && var sub := d.subs[id];
               && sub.topic == topic && sub.accepts == accepts && sub.ctx == ctx
               && sub.buf == sub.received == sub.offered == sub.dropped == []
               && if !c.closed && !ctxDone then d.Registered(topic, id) && sub.closes == 0 && sub.watch == Armed
                  else sub.closes == 1 && d.registry == c.registry
  {
    assert forall t :: !c.Registered(t, id);
  }

  /** Remove takes exactly (topic, id) out of the registry, drops the topic if and only if that was its last
      subscription, closes the channel if and only if it was registered, and touches no other subscription. */
  lemma RemoveRegistered<T>(c: Core<T>, topic: string, id: nat, t: string, j: nat)
    requires RegistryOk(c)
    ensures c.Remove(topic, id).Registered(t, j) <==> c.Registered(t, j) && !(t == topic && j == id)
    ensures t in c.Remove(topic, id).registry <==> t in c.registry && !(t == topic && c.registry[t] == {id})
    ensures j in c.subs ==>
              && j in c.Remove(topic, id).subs
              && c.Remove(topic, id).subs[j]
                 == if j == id && c.Registered(topic, id) then c.subs[j].Shut() else c.subs[j]
  {
    assert topic in c.registry && c.registry[topic] - {id} == {} && id in c.registry[topic] ==> c.registry[topic] == {id};
    if c.Registered(topic, id) {
      assert id in c.subs;
      var rest := c.registry[topic] - {id};
      if c.Registered(t, j) && t == topic && j != id { assert j in rest; }
    }
  }

  lemma RemoveInv<T>(c: Core<T>, cancelled: set<nat>, topic: string, id: nat)
    requires CoreInv(c, cancelled)
    ensures CoreInv(c.Remove(topic, id), cancelled)
    ensures !c.Remove(topic, id).Registered(topic, id)
  {
    var d := c.Remove(topic, id);
    RemoveRegistered(c, topic, id, topic, id);
    if c.Registered(topic, id) {
      assert SubOk(c, cancelled, id);
      forall j | j in d.subs ensures SubOk(d, cancelled, j) {
        assert SubOk(c, cancelled, j);
        RemoveRegistered(c, topic, id, c.subs[j].topic, j);
      }
    }
  }

  lemma CloseInv<T>(c: Core<T>, cancelled: set<nat>)
    requires CoreInv(c, cancelled)
    ensures CoreInv(c.Close(), cancelled)
  {
    var d := c.Close();
    forall j | j in d.subs ensures SubOk(d, cancelled, j) {
      assert SubOk(c, cancelled, j);
      if c.Registered(c.subs[j].topic, j) { assert c.Listed(j); }
    }
  }

  lemma FireInv<T>(c: Core<T>, cancelled: set<nat>, ctx: nat)
    requires CoreInv(c, cancelled)
    ensures CoreInv(c.(subs := Fire(c.subs, ctx)), cancelled + {ctx})
  {
    var d := c.(subs := Fire(c.subs, ctx));
    forall j | j in d.subs ensures SubOk(d, cancelled + {ctx}, j) { assert SubOk(c, cancelled, j); }
  }

  lemma WatcherInv<T>(c: Core<T>, cancelled: set<nat>, id: nat)
    requires CoreInv(c, cancelled) && id in c.subs
    ensures var d := c.Remove(c.subs[id].topic, id); CoreInv(d.Put(id, d.subs[id].(watch := Spent)), cancelled)
  {
    var d := c.Remove(c.subs[id].topic, id);
    RemoveInv(c, cancelled, c.subs[id].topic, id);
    assert SubOk(d, cancelled, id);
    var f := d.Put(id, d.subs[id].(watch := Spent));
    forall j | j in f.subs ensures SubOk(f, cancelled, j) { assert SubOk(d, cancelled, j); }
  }

  /** A step of deliver changes only the contents of the channel it deals with. */
  lemma DeliverIdentity<T>(s: State<T>, e: Event<T>)
    requires Enabled(s, e) && (e.Offer? || e.MakeRoom? || e.Again?)
    requires |s.core.subs[Target(s, e)].buf| <= s.core.cap
    ensures var sub := DeliverStep(s, e).0;
            SameIdentity(s.core.subs[Target(s, e)], sub) && |sub.buf| <= s.core.cap
  {
  }

  lemma StepCore<T>(s: State<T>, e: Event<T>, s': State<T>)
    requires Next(s, e, s') && CoreInv(s.core, s.cancelled)
    ensures CoreInv(s'.core, s'.cancelled)
  {
    var c := s.core;
    if e.Offer? || e.MakeRoom? || e.Again? {
      var id := Target(s, e);
      assert SubOk(c, s.cancelled, id);
      DeliverIdentity(s, e);
      PutInv(c, s.cancelled, id, DeliverStep(s, e).0);
    } else if e.Consume? {
      assert SubOk(c, s.cancelled, e.id);
      PutInv(c, s.cancelled, e.id, c.subs[e.id].Receive());
    } else {
      match e
      case SubscribeCall(id, topic, accepts, ctx) => SubscribeInv(c, s.cancelled, id, topic, accepts, ctx, |s.history|);
      case CancelCtx(ctx) => FireInv(c, s.cancelled, ctx);
      case Watcher(id) => WatcherInv(c, s.cancelled, id);
      case CloseCall => CloseInv(c, s.cancelled);
      case RemoveOne(p) => RemoveInv(c, s.cancelled, s.pubs[p].topic, s.pubs[p].disconnect[0]);
      case _ =>
    }
  }

  // ----- the publishers -----

  /** No subscription disappears or changes its topic or filter, and the broker's options are fixed. */
  ghost predicate CoreKept<T>(c: Core<T>, d: Core<T>) {
    && c.subs.Keys <= d.subs.Keys
    && (forall id | id in c.subs ::
          && d.subs[id].topic == c.subs[id].topic
          && d.subs[id].accepts == c.subs[id].accepts
          && d.subs[id].since == c.subs[id].since)
    && d.policy == c.policy && d.cap == c.cap
  }

  /** In addition, while anybody holds the read lock the registry is frozen. */
  ghost predicate Kept<T>(s: State<T>, s': State<T>) {
    CoreKept(s.core, s'.core) && (!s.NoReaders() ==> s'.core.registry == s.core.registry)
  }

  lemma RemoveKept<T>(c: Core<T>, topic: string, id: nat)
    ensures CoreKept(c, c.Remove(topic, id))
  {
  }

  lemma CloseKept<T>(c: Core<T>)
    ensures CoreKept(c, c.Close())
  {
  }

  lemma SubscribeKept<T>(c: Core<T>, id: nat, topic: string, accepts: T -> bool, ctx: nat, done: bool, since: nat)
    requires id !in c.subs
    ensures CoreKept(c, c.Subscribe(id, topic, accepts, ctx, done, since))
  {
  }

  lemma PutKept<T>(c: Core<T>, id: nat, sub: Sub<T>)
    requires id in c.subs && SameIdentity(c.subs[id], sub.(closes := c.subs[id].closes, watch := c.subs[id].watch))
    ensures CoreKept(c, c.Put(id, sub)) && c.Put(id, sub).registry == c.registry
  {
  }

  lemma StepKept<T>(s: State<T>, e: Event<T>, s': State<T>)
    requires Next(s, e, s')
    ensures Kept(s, s')
  {
    var c := s.core;
    if e.Offer? || e.MakeRoom? || e.Again? {
      var id := Target(s, e);
      assert SameIdentity(c.subs[id], DeliverStep(s, e).0);
      PutKept(c, id, DeliverStep(s, e).0);
    } else {
      match e
      case SubscribeCall(id, topic, accepts, ctx) =>
        SubscribeKept(c, id, topic, accepts, ctx, ctx in s.cancelled, |s.history|);
      case Watcher(id) =>
        var d := c.Remove(c.subs[id].topic, id);
        RemoveKept(c, c.subs[id].topic, id);
        PutKept(d, id, d.subs[id].(watch := Spent));
      case CloseCall => CloseKept(c);
      case RemoveOne(p) => RemoveKept(c, s.pubs[p].topic, s.pubs[p].disconnect[0]);
      case Consume(id) => PutKept(c, id, c.subs[id].Receive());
      case _ =>
    }
  }

  lemma PubOkKept<T>(s: State<T>, s': State<T>, p: nat)
    requires Kept(s, s') && p in s.pubs && PubOk(s.core, s.pubs[p])
    ensures PubOk(s'.core, s.pubs[p])
  {
    if s.pubs[p].HoldsLock() { assert !s.NoReaders(); }
    RecordKept(s.core, s'.core, s.pubs[p]);
  }

  /** A publisher's record after its own step of deliver. */
  lemma DeliverPubOk<T>(s: State<T>, e: Event<T>)
    requires Enabled(s, e) && (e.Offer? || e.MakeRoom? || e.Again?)
    requires PubOk(s.core, s.pubs[e.p])
    ensures PubOk(s.core, DeliverStep(s, e).1)
  {
  }

  lemma BeginPubOk<T>(s: State<T>, e: Event<T>)
    requires CoreInv(s.core, s.cancelled) && Enabled(s, e) && e.Begin?
    ensures PubOk(s.core, Apply(s, e).pubs[e.p])
  {
    assert forall id | id in s.core.Audience(e.topic) :: id in s.core.subs;
  }

  lemma LocalPubOk<T>(s: State<T>, e: Event<T>)
    requires Enabled(s, e) && (e.Skip? || e.Unlock? || e.RemoveOne? || e.Return?)
    requires PubOk(s.core, s.pubs[e.p])
    ensures PubOk(s.core, Apply(s, e).pubs[e.p])
  {
  }

  /** The publisher a step belongs to stays in order. */
  lemma OwnStep<T>(s: State<T>, e: Event<T>, s': State<T>, p: nat)
    requires Next(s, e, s') && CoreInv(s.core, s.cancelled) && PubsInv(s)
    requires p in s'.pubs && (p in s.pubs ==> s'.pubs[p] != s.pubs[p])
    ensures PubOk(s'.core, s'.pubs[p])
  {
    StepKept(s, e, s');
    if p in s.pubs { assert PubOk(s.core, s.pubs[p]); }
    if e.Offer? || e.MakeRoom? || e.Again? {
      DeliverPubOk(s, e);
      assert !s.NoReaders() by { assert s.pubs[p].HoldsLock(); }
      RecordKept(s.core, s'.core, s'.pubs[p]);
    } else if e.Begin? {
      BeginPubOk(s, e);
    } else {
      LocalPubOk(s, e);
      if s.pubs[p].HoldsLock() { assert !s.NoReaders(); }
      RecordKept(s.core, s'.core, s'.pubs[p]);
    }
  }

  lemma RecordKept<T>(c: Core<T>, c': Core<T>, pub: Pub<T>)
    requires PubOk(c, pub) && c'.policy == c.policy
    requires c.subs.Keys <= c'.subs.Keys
    requires forall id | id in c.subs :: c'.subs[id].accepts == c.subs[id].accepts
    requires pub.HoldsLock() ==> c'.registry == c.registry
    ensures PubOk(c', pub)
  {
    assert forall id | id in pub.audience :: id in c.subs;
  }

  lemma StepPubs<T>(s: State<T>, e: Event<T>, s': State<T>)
    requires Next(s, e, s') && CoreInv(s.core, s.cancelled) && PubsInv(s)
    ensures PubsInv(s')
  {
    StepKept(s, e, s');
    forall p | p in s'.pubs ensures PubOk(s'.core, s'.pubs[p]) {
      if p in s.pubs && s'.pubs[p] == s.pubs[p] { PubOkKept(s, s', p); } else { OwnStep(s, e, s', p); }
    }
  }

  lemma StepNoFault<T>(s: State<T>, e: Event<T>, s': State<T>)
    requires Next(s, e, s') && CoreInv(s.core, s.cancelled) && PubsInv(s) && !s.fault
    ensures !s'.fault
  {
    if e.Offer? || e.MakeRoom? || e.Again? { Touchable(s, e.p, Target(s, e)); }
  }

  /** Every channel a publisher under the read lock still deals with is open. */
  lemma Touchable<T>(s: State<T>, p: nat, id: nat)
    requires CoreInv(s.core, s.cancelled) && PubsInv(s)
    requires p in s.pubs && s.pubs[p].HoldsLock() && (id in s.pubs[p].todo || s.pubs[p].Holds(id))
    ensures id in s.core.subs && s.core.subs[id].closes == 0
  {
    assert PubOk(s.core, s.pubs[p]);
    assert s.core.Registered(s.pubs[p].topic, id);
    assert SubOk(s.core, s.cancelled, id);
  }

  // ----- accounting -----

  /** Replacing one publisher moves the two counts by what that publisher did. */
  lemma Recount<T(!new)>(pubs: map<nat, Pub<T>>, p: nat, pub: Pub<T>, id: nat, m: T)
    ensures var was := p in pubs && pubs[p].msg == m;
            && |Holding(pubs[p := pub], id, m)|
               == |Holding(pubs, id, m)| - (if was && pubs[p].Holds(id) then 1 else 0)
                  + (if pub.msg == m && pub.Holds(id) then 1 else 0)
            && |Reaching(pubs[p := pub], id, m)|
               == |Reaching(pubs, id, m)| - (if was && id in pubs[p].reached then 1 else 0)
                  + (if pub.msg == m && id in pub.reached then 1 else 0)
  {
    CardFlip(Holding(pubs, id, m), Holding(pubs[p := pub], id, m), p);
    CardFlip(Reaching(pubs, id, m), Reaching(pubs[p := pub], id, m), p);
  }

  /** Messages of a subscription's channel and logs, without those in a publisher's hand. */
  ghost function Settled<T>(sub: Sub<T>): multiset<T> {
    multiset(sub.received) + multiset(sub.buf) + multiset(sub.dropped)
  }

  lemma SettledTake<T>(sub: Sub<T>, m: T, parked: bool)
    ensures Settled(sub.Take(m, parked)) == Settled(sub) + multiset{m}
  {
    if parked && sub.buf == [] { CountAppend(sub.received, m); } else { CountAppend(sub.buf, m); }
  }

  lemma SettledLose<T>(sub: Sub<T>, m: T)
    ensures Settled(sub.Lose(m)) == Settled(sub) + multiset{m}
  {
    CountAppend(sub.dropped, m);
  }

  lemma SettledEvict<T>(sub: Sub<T>)
    ensures Settled(sub.Evict()) == Settled(sub)
  {
    if sub.buf != [] {
      CountHead(sub.buf);
      CountAppend(sub.dropped, sub.buf[0]);
    }
  }

  lemma SettledReceive<T>(sub: Sub<T>)
    requires sub.buf != []
    ensures Settled(sub.Receive()) == Settled(sub)
  {
    CountHead(sub.buf);
    CountAppend(sub.received, sub.buf[0]);
  }

  ghost function Hand<T>(pub: Pub<T>, id: nat): multiset<T> {
    if pub.Holds(id) then multiset{pub.msg} else multiset{}
  }

  /** A step of deliver at subscription id moves messages between the channel, the logs and the
      publisher's hand, taking in `offer`, and loses none. */
  ghost predicate Moves<T>(id: nat, sub: Sub<T>, pub: Pub<T>, sub': Sub<T>, pub': Pub<T>, offer: multiset<T>) {
    && Settled(sub') + Hand(pub', id) == Settled(sub) + Hand(pub, id) + offer
    && multiset(sub'.offered) == multiset(sub.offered) + offer
    && pub'.msg == pub.msg
    && (forall j | j != id :: pub'.Holds(j) <==> pub.Holds(j))
    && (forall j | j != id :: j in pub'.reached <==> j in pub.reached)
  }

  lemma FirstSendMoves<T>(cap: nat, policy: Policy, id: nat, sub: Sub<T>, pub: Pub<T>, parked: bool)
    requires pub.stage.Scanning?
    ensures var (sub', pub') := FirstSend(cap, policy, id, sub, pub, parked);
            Moves(id, sub, pub, sub', pub', multiset{pub.msg}) && id in pub'.reached
  {
    var o := sub.(offered := sub.offered + [pub.msg]);
    var (sub', pub') := FirstSend(cap, policy, id, sub, pub, parked);
    CountAppend(sub.offered, pub.msg);
    assert sub'.offered == o.offered && pub'.msg == pub.msg && pub'.reached == pub.reached + {id};
    assert Hand(pub, id) == multiset{} && forall j | j != id :: !pub'.Holds(j);
    assert Settled(sub') + Hand(pub', id) == Settled(o) + multiset{pub.msg} by {
      SettledTake(o, pub.msg, parked);
      SettledLose(o, pub.msg);
      if o.Takes(cap, parked) {
        assert sub' == o.Take(pub.msg, parked) && !pub'.Holds(id);
      } else if policy == DropOldest {
        assert sub' == o && pub'.Holds(id);
      } else {
        assert sub' == o.Lose(pub.msg) && !pub'.Holds(id);
      }
    }
  }

  lemma MakeSpaceMoves<T>(sub: Sub<T>, pub: Pub<T>)
    requires pub.stage.Refused?
    ensures var (sub', pub') := MakeSpace(pub.stage.id, sub, pub);
            Moves(pub.stage.id, sub, pub, sub', pub', multiset{}) && pub'.reached == pub.reached
  {
    SettledEvict(sub);
  }

  lemma SecondSendMoves<T>(cap: nat, sub: Sub<T>, pub: Pub<T>, parked: bool)
    requires pub.stage.Making?
    ensures var (sub', pub') := SecondSend(cap, sub, pub, parked);
            Moves(pub.stage.id, sub, pub, sub', pub', multiset{}) && pub'.reached == pub.reached
  {
    var (sub', pub') := SecondSend(cap, sub, pub, parked);
    assert Hand(pub, pub.stage.id) == multiset{pub.msg} && forall j :: !pub'.Holds(j);
    if sub.Takes(cap, parked) { SettledTake(sub, pub.msg, parked); } else { SettledLose(sub, pub.msg); }
    assert Settled(sub') == Settled(sub) + multiset{pub.msg};
  }

  /** Whatever moves messages in this way keeps the account of the subscription it deals with. */
  lemma MovesBalance<T(!new)>(s: State<T>, s': State<T>, p: nat, id: nat, pub': Pub<T>, offer: multiset<T>, m: T)
    requires p in s.pubs && id in s.core.subs && Balanced(s, id, m)
    requires id in s'.core.subs && s'.pubs == s.pubs[p := pub']
    requires Moves(id, s.core.subs[id], s.pubs[p], s'.core.subs[id], pub', offer)
    requires id in pub'.reached
    requires offer == if id in s.pubs[p].reached then multiset{} else multiset{s.pubs[p].msg}
    ensures Balanced(s', id, m)
  {
    var sub, sub' := s.core.subs[id], s'.core.subs[id];
    Recount(s.pubs, p, pub', id, m);
    SettledCount(sub, m);
    SettledCount(sub', m);
    var h, h' := Hand(s.pubs[p], id), Hand(pub', id);
    assert Settled(sub')[m] + h'[m] == Settled(sub)[m] + h[m] + offer[m] by {
      assert (Settled(sub') + h')[m] == (Settled(sub) + h + offer)[m];
    }
    assert multiset(sub'.offered)[m] == multiset(sub.offered)[m] + offer[m];
  }

  /** The accounts of the other subscriptions are not affected. */
  lemma MovesElsewhere<T(!new)>(s: State<T>, s': State<T>, p: nat, id: nat, pub': Pub<T>, offer: multiset<T>, j: nat, m: T)
    requires p in s.pubs && id in s.core.subs && id in s'.core.subs && j in s.core.subs && j != id && Balanced(s, j, m)
    requires j in s'.core.subs && s'.core.subs[j] == s.core.subs[j] && s'.pubs == s.pubs[p := pub']
    requires Moves(id, s.core.subs[id], s.pubs[p], s'.core.subs[id], pub', offer)
    ensures Balanced(s', j, m)
  {
    Recount(s.pubs, p, pub', j, m);
  }

  /** Publisher p dealt with subscription id, and with nothing else; on first reaching it, it took in its message. */
  ghost predicate Dealt<T>(s: State<T>, s': State<T>, p: nat, id: nat) {
    && p in s.pubs && p in s'.pubs && s'.pubs == s.pubs[p := s'.pubs[p]]
    && id in s.core.subs && id in s'.core.subs && s'.core.subs == s.core.subs[id := s'.core.subs[id]]
    && id in s'.pubs[p].reached
    && Moves(id, s.core.subs[id], s.pubs[p], s'.core.subs[id], s'.pubs[p],
             if id in s.pubs[p].reached then multiset{} else multiset{s.pubs[p].msg})
  }

  lemma DeliverDeals<T>(s: State<T>, e: Event<T>, s': State<T>)
    requires Next(s, e, s') && (e.Offer? || e.MakeRoom? || e.Again?) && PubOk(s.core, s.pubs[e.p])
    ensures Dealt(s, s', e.p, Target(s, e))
  {
    var id := Target(s, e);
    var sub, pub := s.core.subs[id], s.pubs[e.p];
    assert (s'.core.subs[id], s'.pubs[e.p]) == DeliverStep(s, e);
    match e
    case Offer(_, _, parked) => FirstSendMoves(s.core.cap, s.core.policy, id, sub, pub, parked);
    case MakeRoom(_) => assert pub.Holds(id); MakeSpaceMoves(sub, pub);
    case Again(_, parked) => assert pub.Holds(id); SecondSendMoves(s.core.cap, sub, pub, parked);
  }

  /** A publisher's own step of deliver keeps every account. */
  lemma BalanceAt<T(!new)>(s: State<T>, s': State<T>, p: nat, id: nat, j: nat, m: T)
    requires Dealt(s, s', p, id) && j in s.core.subs && Balanced(s, j, m)
    ensures Balanced(s', j, m)
  {
    var offer := if id in s.pubs[p].reached then multiset{} else multiset{s.pubs[p].msg};
    if j == id {
      MovesBalance(s, s', p, id, s'.pubs[p], offer, m);
    } else {
      MovesElsewhere(s, s', p, id, s'.pubs[p], offer, j, m);
    }
  }

  lemma SettledCount<T(!new)>(sub: Sub<T>, m: T)
    ensures Settled(sub)[m] == multiset(sub.received)[m] + multiset(sub.buf)[m] + multiset(sub.dropped)[m]
  {
  }

  /** A subscription nobody has reached yet balances. */
  lemma BalanceNew<T(!new)>(s: State<T>, s': State<T>, id: nat, m: T)
    requires PubsInv(s) && id !in s.core.subs && s'.pubs == s.pubs && id in s'.core.subs
    requires s'.core.subs[id].offered == [] && Settled(s'.core.subs[id]) == multiset{}
    ensures Balanced(s', id, m)
  {
    forall p | p in s.pubs ensures id !in s.pubs[p].reached && !s.pubs[p].Holds(id) {
      assert PubOk(s.core, s.pubs[p]);
    }
    assert Reaching(s.pubs, id, m) == {} && Holding(s.pubs, id, m) == {};
    var sub := s'.core.subs[id];
    assert Settled(sub)[m] == multiset(sub.received)[m] + multiset(sub.buf)[m] + multiset(sub.dropped)[m];
  }

  ghost predicate SameLogs<T>(a: Sub<T>, b: Sub<T>) {
    a.offered == b.offered && a.received == b.received && a.buf == b.buf && a.dropped == b.dropped
  }

  lemma LockedMoves<T>(s: State<T>, e: Event<T>, s': State<T>, j: nat)
    requires Next(s, e, s') && j in s.core.subs
    requires e.SubscribeCall? || e.Watcher? || e.CloseCall? || e.RemoveOne? || e.CancelCtx?
    ensures j in s'.core.subs && SameLogs(s.core.subs[j], s'.core.subs[j])
  {
  }

  /** All other steps leave the logs alone, or move one message from the buffer to the consumer. */
  lemma OtherMoves<T>(s: State<T>, e: Event<T>, s': State<T>, j: nat)
    requires Next(s, e, s') && j in s.core.subs && !e.Offer? && !e.MakeRoom? && !e.Again?
    ensures j in s'.core.subs
    ensures s'.core.subs[j].offered == s.core.subs[j].offered
    ensures Settled(s'.core.subs[j]) == Settled(s.core.subs[j])
  {
    var sub := s.core.subs[j];
    if e.SubscribeCall? || e.Watcher? || e.CloseCall? || e.RemoveOne? || e.CancelCtx? {
      LockedMoves(s, e, s', j);
    } else if e.Consume? {
      if e.id == j { SettledReceive(sub); }
    } else {
      assert s'.core == s.core;
    }
  }

  lemma OtherPubs<T(!new)>(s: State<T>, e: Event<T>, s': State<T>, j: nat, m: T)
    requires Next(s, e, s') && !e.Offer? && !e.MakeRoom? && !e.Again?
    ensures |Holding(s'.pubs, j, m)| == |Holding(s.pubs, j, m)|
    ensures |Reaching(s'.pubs, j, m)| == |Reaching(s.pubs, j, m)|
  {
    if e.Begin? || e.Skip? || e.Unlock? || e.RemoveOne? || e.Return? {
      assert s'.pubs == s.pubs[e.p := s'.pubs[e.p]];
      Recount(s.pubs, e.p, s'.pubs[e.p], j, m);
    }
  }

  lemma BalanceKept<T(!new)>(s: State<T>, e: Event<T>, s': State<T>, j: nat, m: T)
    requires Next(s, e, s') && j in s.core.subs && Balanced(s, j, m)
    requires !e.Offer? && !e.MakeRoom? && !e.Again?
    ensures j in s'.core.subs && Balanced(s', j, m)
  {
    OtherMoves(s, e, s', j);
    OtherPubs(s, e, s', j, m);
    SettledCount(s.core.subs[j], m);
    SettledCount(s'.core.subs[j], m);
  }

  lemma StepAccounted<T(!new)>(s: State<T>, e: Event<T>, s': State<T>)
    requires Next(s, e, s') && PubsInv(s) && Accounted(s)
    ensures Accounted(s')
  {
    forall j, m: T | j in s'.core.subs ensures Balanced(s', j, m) {
      if j !in s.core.subs {
        BalanceNew(s, s', j, m);
      } else {
        assert Balanced(s, j, m);
        if e.Offer? || e.MakeRoom? || e.Again? {
          assert PubOk(s.core, s.pubs[e.p]);
          DeliverDeals(s, e, s');
          BalanceAt(s, s', e.p, Target(s, e), j, m);
        } else {
          BalanceKept(s, e, s', j, m);
        }
      }
    }
  }

  lemma StepInv<T(!new)>(s: State<T>, e: Event<T>, s': State<T>)
    requires Inv(s) && Next(s, e, s')
    ensures Inv(s')
  {
    StepCore(s, e, s');
    StepPubs(s, e, s');
    StepNoFault(s, e, s');
    StepAccounted(s, e, s');
  }

  lemma RunInv<T(!new)>(ss: seq<State<T>>, es: seq<Event<T>>, k: nat)
    requires Run(Init, Next, ss, es) && k < |ss|
    ensures Inv(ss[k])
  {
    forall s: State<T> | Init(s) ensures Inv(s) { }
    forall s: State<T>, e, s' | Inv(s) && Next(s, e, s') ensures Inv(s') { StepInv(s, e, s'); }
    Invariance(Init, Next, Inv, ss, es, k);
  }

  // ----- what it means -----

  /** Exactly-once accounting, in every interleaving and under every policy: for each subscription and
      each message, the publications of it that reached the subscription are the copies received, the
      copies buffered, the copies reported dropped and the copies in a publisher's hand; and when no
      publisher is in the middle of a delivery to it, nothing is unaccounted for. */
  lemma ExactlyOnce<T(!new)>(ss: seq<State<T>>, es: seq<Event<T>>, k: nat, id: nat, m: T)
    requires Run(Init, Next, ss, es) && k < |ss| && id in ss[k].core.subs
    ensures var s, sub := ss[k], ss[k].core.subs[id];
            && |Reaching(s.pubs, id, m)|
               == multiset(sub.received)[m] + multiset(sub.buf)[m] + multiset(sub.dropped)[m] + |Holding(s.pubs, id, m)|
            && ((forall p | p in s.pubs :: !s.pubs[p].Holds(id)) ==>
                  multiset(sub.offered) == multiset(sub.received) + multiset(sub.buf) + multiset(sub.dropped))
  {
    RunInv(ss, es, k);
    var s, sub := ss[k], ss[k].core.subs[id];
    assert Balanced(s, id, m);
    if forall p | p in s.pubs :: !s.pubs[p].Holds(id) {
      forall x: T ensures multiset(sub.offered)[x] == Settled(sub)[x] {
        assert Balanced(s, id, x);
        assert Holding(s.pubs, id, x) == {};
      }
    }
  }

  /** A finished publication reached exactly the subscriptions that were registered on its topic when it
      took the read lock and whose filter accepts it; and it returns ErrSlowSubscriber exactly when it
      reported at least one drop. */
  lemma PublishOutcome<T(!new)>(ss: seq<State<T>>, es: seq<Event<T>>, k: nat, p: nat)
    requires Run(Init, Next, ss, es) && k < |ss| && p in ss[k].pubs && ss[k].pubs[p].stage.Done?
    ensures var s, pub := ss[k], ss[k].pubs[p];
            && pub.audience <= s.core.subs.Keys
            && pub.reached == (set id | id in pub.audience && s.core.subs[id].accepts(pub.msg))
            && (pub.stage.reply == ErrSlowSubscriber <==> pub.reports > 0)
  {
    RunInv(ss, es, k);
    assert PubOk(ss[k].core, ss[k].pubs[p]);
  }

  /** Channel lifetime in every run: a channel is closed at most once, whoever closes it; it is open
      exactly while its subscription is registered; a registered subscription whose context is done has
      its removal pending, and one that is closed no watcher left on its context; and no publisher ever sends to or evicts
      from a closed channel. */
  lemma ChannelLifetime<T(!new)>(ss: seq<State<T>>, es: seq<Event<T>>, k: nat, id: nat)
    requires Run(Init, Next, ss, es) && k < |ss| && id in ss[k].core.subs
    ensures var s, sub := ss[k], ss[k].core.subs[id];
            && sub.closes <= 1
            && (sub.closes == 0 <==> s.core.Registered(sub.topic, id))
            && (s.core.Registered(sub.topic, id) && sub.ctx in s.cancelled ==> sub.watch == Fired)
            && (sub.closes == 1 ==> sub.watch != Armed)
            && (s.core.closed ==> sub.closes == 1)
            && !s.fault
            && (forall p | p in s.pubs && s.pubs[p].HoldsLock() && (id in s.pubs[p].todo || s.pubs[p].Holds(id)) ::
                  sub.closes == 0)
  {
    RunInv(ss, es, k);
    var s, sub := ss[k], ss[k].core.subs[id];
    assert SubOk(s.core, s.cancelled, id);
    forall p | p in s.pubs && s.pubs[p].HoldsLock() && (id in s.pubs[p].todo || s.pubs[p].Holds(id))
      ensures sub.closes == 0
    {
      Touchable(s, p, id);
    }
  }
}
