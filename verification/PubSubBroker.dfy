/** pkg/pubsub: the Broker object, and what its methods do when nobody interferes. */
module PubSubBroker {
  import opened PubSub
  import PubSubSafety

  /** The whole effect of deliver on a subscription when neither a consumer nor another publisher acts
      during it, and whether a message was lost. */
  function Delivered<T>(cap: nat, policy: Policy, sub: Sub<T>, msg: T): (Sub<T>, bool) {
    var log := sub.offered + [msg];
    if |sub.buf| < cap then (sub.(offered := log, buf := sub.buf + [msg]), false)
    else if policy == DropOldest && cap > 0 then
      (sub.(offered := log, buf := sub.buf[1..] + [msg], dropped := sub.dropped + [sub.buf[0]]), true)
    else (sub.(offered := log, dropped := sub.dropped + [msg]), true)
  }

  /** The three selects of deliver, taken one right after the other, have exactly that effect. */
  lemma UninterruptedDeliver<T>(cap: nat, policy: Policy, id: nat, sub: Sub<T>, pub: Pub<T>)
    requires pub.stage.Scanning? && |sub.buf| <= cap
    ensures var (sub1, pub1) := FirstSend(cap, policy, id, sub, pub, false);
            if pub1.stage.Refused? then
              var (sub2, pub2) := MakeSpace(id, sub1, pub1);
              var (sub3, pub3) := SecondSend(cap, sub2, pub2, false);
              && (sub3, true) == Delivered(cap, policy, sub, pub.msg)
              && pub3.stage.Scanning? && pub3.lost
            else
              (sub1, pub1.lost) == (Delivered(cap, policy, sub, pub.msg).0, pub.lost || Delivered(cap, policy, sub, pub.msg).1)
  {
  }

  /** Subscriptions on the topic that accept the message and whose buffer is full. */
  ghost function Losers<T>(c: Core<T>, topic: string, msg: T): set<nat> {
    LosersIn(c, c.Audience(topic), msg)
  }

  ghost function LosersIn<T>(c: Core<T>, audience: set<nat>, msg: T): set<nat> {
    set id | id in audience && id in c.subs && c.subs[id].accepts(msg) && |c.subs[id].buf| >= c.cap
  }

  ghost predicate Hears<T>(c: Core<T>, topic: string, msg: T, id: nat)
    requires id in c.subs
  {
    id in c.Audience(topic) && c.subs[id].accepts(msg)
  }

  /** The subscriptions after the message was delivered to those of `done` that accept it. */
  ghost function HeardIn<T>(c: Core<T>, msg: T, done: set<nat>): map<nat, Sub<T>> {
    map id | id in c.subs ::
      if id in done && c.subs[id].accepts(msg) then Delivered(c.cap, c.policy, c.subs[id], msg).0 else c.subs[id]
  }

  lemma HeardOne<T>(c: Core<T>, msg: T, done: set<nat>, id: nat)
    requires id in c.subs && id !in done
    ensures HeardIn(c, msg, done)[id] == c.subs[id]
    ensures HeardIn(c, msg, done + {id})
            == if c.subs[id].accepts(msg)
               then HeardIn(c, msg, done)[id := Delivered(c.cap, c.policy, c.subs[id], msg).0]
               else HeardIn(c, msg, done)
  {
  }

  lemma HeardValid<T>(c: Core<T>, msg: T, done: set<nat>)
    requires RegistryOk(c) && forall id | id in c.subs :: |c.subs[id].buf| <= c.cap
    ensures RegistryOk(c.(subs := HeardIn(c, msg, done)))
    ensures forall id | id in c.subs :: |HeardIn(c, msg, done)[id].buf| <= c.cap
  {
  }

  /** `d` is `c` after the subscriptions `ids` of the topic were removed. */
  ghost predicate Dropped<T>(c: Core<T>, d: Core<T>, topic: string, ids: seq<nat>) {
    && d.subs.Keys == c.subs.Keys && d.closed == c.closed
    && (forall id | id in c.subs :: d.subs[id] == if id in ids then c.subs[id].Shut() else c.subs[id])
    && (forall t, id :: d.Registered(t, id) <==> c.Registered(t, id) && !(t == topic && id in ids))
  }

  /** `d` is `c` after an uninterrupted Publish: every subscription of the topic that accepts the message
      was delivered to, no other was touched, and under Disconnect exactly the losers were unregistered
      and closed. */
  ghost predicate Published<T>(c: Core<T>, d: Core<T>, topic: string, msg: T) {
    && d.subs.Keys == c.subs.Keys && d.closed == c.closed
    && (forall id | id in c.subs ::
          d.subs[id] ==
            if !Hears(c, topic, msg, id) then c.subs[id]
            else
              var sub := Delivered(c.cap, c.policy, c.subs[id], msg).0;
              if c.policy == Disconnect && id in Losers(c, topic, msg) then sub.Shut() else sub)
    && (forall t, id :: d.Registered(t, id) <==>
          c.Registered(t, id) && !(c.policy == Disconnect && t == topic && id in Losers(c, topic, msg)))
  }

  lemma DroppedMore<T>(c: Core<T>, b: Core<T>, topic: string, ids: seq<nat>, id: nat)
    requires RegistryOk(b) && Dropped(c, b, topic, ids) && c.Registered(topic, id)
    ensures Dropped(c, b.Remove(topic, id), topic, ids + [id])
  {
    var d := b.Remove(topic, id);
    forall t, j ensures d.Registered(t, j) <==> c.Registered(t, j) && !(t == topic && j in ids + [id]) {
      PubSubSafety.RemoveRegistered(b, topic, id, t, j);
    }
    assert b.Registered(topic, id) <==> id !in ids;
  }

  lemma HeardThenDropped<T>(c: Core<T>, d: Core<T>, topic: string, msg: T, ids: seq<nat>)
    requires Dropped(c.(subs := HeardIn(c, msg, c.Audience(topic))), d, topic, ids)
    requires forall id :: id in ids <==> c.policy == Disconnect && id in Losers(c, topic, msg)
    ensures Published(c, d, topic, msg)
  {
    var m := c.(subs := HeardIn(c, msg, c.Audience(topic)));
    assert forall t, id :: m.Registered(t, id) <==> c.Registered(t, id);
  }

  function ShutIn<T>(subs: map<nat, Sub<T>>, ids: set<nat>): map<nat, Sub<T>> {
    map id | id in subs :: if id in ids then subs[id].Shut() else subs[id]
  }

  class Broker<T(!new)> {
    const cap: nat
    const policy: Policy
    var subs: map<nat, Sub<T>>
    var registry: map<string, set<nat>>
    var closed: bool
    var published: nat  // publications that found the broker open

    ghost function View(): Core<T>
      reads this
    {
      Core(cap, policy, subs, registry, closed)
    }

    ghost predicate Valid()
      reads this
    {
      && RegistryOk(View())
      && (forall id | id in subs :: |subs[id].buf| <= cap)
    }

    constructor (cap: nat, policy: Policy)
      ensures Valid() && View() == Core(cap, policy, map[], map[], false) && published == 0
    {
      this.cap, this.policy := cap, policy;
      subs, registry, closed, published := map[], map[], false, 0;
    }

    /** `id` names the new channel. */
    method Subscribe(id: nat, topic: string, accepts: T -> bool, ctx: nat, ctxDone: bool)
      requires Valid() && id !in subs
      modifies this
      ensures View() == old(View()).Subscribe(id, topic, accepts, ctx, ctxDone, old(published))
      ensures Valid() && published == old(published) && closed == old(closed)
      ensures subs.Keys == old(subs).Keys + {id} && forall j | j in old(subs) :: subs[j] == old(subs)[j]
      ensures var sub := subs[id];
              && sub.topic == topic && sub.accepts == accepts && sub.ctx == ctx && sub.buf == []
              && if !old(closed) && !ctxDone then
                   View().Registered(topic, id) && sub.closes == 0 && sub.watch == Armed
                 else sub.closes == 1 && registry == old(registry)
      ensures forall t, j | j != id :: View().Registered(t, j) <==> old(View()).Registered(t, j)
    {
      ghost var c := View();
      PubSubSafety.SubscribeMeaning(c, id, topic, accepts, ctx, ctxDone, published);
      Enroll(id, topic, Sub(topic, accepts, ctx, [], 0, Armed, published, [], [], []), closed || ctxDone);
      assert View() == c.Subscribe(id, topic, accepts, ctx, ctxDone, published);
    }

    /** Adds the channel, and its registration unless it is to be closed at once. */
    method Enroll(id: nat, topic: string, sub: Sub<T>, shut: bool)
      requires Valid() && id !in subs && sub.topic == topic && sub.buf == [] && (closed ==> shut)
      modifies this`subs, this`registry
      ensures Valid()
      ensures subs == old(subs)[id := if shut then sub.(closes := 1, watch := Spent) else sub]
      ensures registry == if shut then old(registry) else old(registry)[topic := old(View()).Audience(topic) + {id}]
    {
      if shut {
        subs := subs[id := sub.(closes := 1, watch := Spent)];
        return;
      }
      if topic !in registry {
        registry := registry[topic := {}];
      }
      registry := registry[topic := registry[topic] + {id}];
      subs := subs[id := sub];
      assert registry == old(registry)[topic := old(View()).Audience(topic) + {id}];
    }

    method Remove(topic: string, id: nat)
      requires Valid()
      modifies this
      ensures View() == old(View()).Remove(topic, id)
      ensures Valid() && published == old(published)
    {
      if topic !in registry || id !in registry[topic] {
        return;
      }
      var rest := registry[topic] - {id};
      if rest == {} {
        registry := registry - {topic};
      } else {
        registry := registry[topic := rest];
      }
      subs := subs[id := subs[id].Shut()];
    }

    /** Closes every registered channel, set by set. */
    method Close()
      requires Valid()
      modifies this
      ensures View() == old(View()).Close()
      ensures Valid() && published == old(published)
    {
      if closed {
        return;
      }
      closed := true;
      var topics := registry.Keys;
      ghost var c := old(View());
      ghost var done: set<nat> := {};
      while topics != {}
        invariant topics <= c.registry.Keys
        invariant registry == c.registry && closed && published == old(published)
        invariant forall id :: id in done <==> exists t :: t in c.registry && t !in topics && id in c.registry[t]
        invariant subs == ShutIn(c.subs, done)
      {
        var topic :| topic in topics;
        forall t, id | t in c.registry && id in c.registry[t] && id in c.registry[topic] ensures t == topic {
          assert c.subs[id].topic == t;
        }
        ShutAll(registry[topic]);
        ghost var was := topics;
        topics := topics - {topic};
        forall id ensures id in done + c.registry[topic]
                          <==> exists t :: t in c.registry && t !in topics && id in c.registry[t]
        {
          if id in done {
            var t :| t in c.registry && t !in was && id in c.registry[t];
            assert t !in topics;
          }
          if id in c.registry[topic] { assert topic !in topics; }
        }
        done := done + c.registry[topic];
      }
      registry := map[];
      assert forall id :: id in done <==> c.Listed(id);
      assert subs == c.Close().subs;
    }

    method ShutAll(ids: set<nat>)
      requires ids <= subs.Keys
      modifies this`subs
      ensures subs == ShutIn(old(subs), ids)
    {
      var todo := ids;
      while todo != {}
        invariant todo <= ids && subs == ShutIn(old(subs), ids - todo)
      {
        var id :| id in todo;
        subs := subs[id := subs[id].Shut()];
        todo := todo - {id};
      }
      assert ids - todo == ids;
    }

    /** deliver, with nobody interfering and no receiver parked. */
    method Deliver(id: nat, msg: T) returns (lost: bool)
      requires id in subs && |subs[id].buf| <= cap
      modifies this`subs
      ensures subs == old(subs)[id := Delivered(cap, policy, old(subs)[id], msg).0]
      ensures lost == Delivered(cap, policy, old(subs)[id], msg).1
    {
      var sub := subs[id].(offered := subs[id].offered + [msg]);
      if |sub.buf| < cap {
        subs := subs[id := sub.(buf := sub.buf + [msg])];
        return false;
      }
      if policy != DropOldest {
        subs := subs[id := sub.(dropped := sub.dropped + [msg])];
        return true;
      }
      var evicted := false;
      if sub.buf != [] {
        sub := sub.(dropped := sub.dropped + [sub.buf[0]], buf := sub.buf[1..]);
        evicted := true;
      }
      if |sub.buf| < cap {
        subs := subs[id := sub.(buf := sub.buf + [msg])];
        return evicted;
      }
      subs := subs[id := sub.(dropped := sub.dropped + [msg])];
      return true;
    }

    /** Publish, with nobody interfering; the error says whether anything was lost. */
    method Publish(ctxDone: bool, topic: string, msg: T) returns (reply: Reply)
      requires Valid()
      modifies this
      ensures Valid()
      ensures ctxDone || old(closed) ==>
                View() == old(View()) && reply == if ctxDone then CtxErr else ErrClosed
      ensures !ctxDone && !old(closed) ==>
                && Published(old(View()), View(), topic, msg)
                && reply == if Losers(old(View()), topic, msg) != {} then ErrSlowSubscriber else Nil
    {
      if ctxDone {
        return CtxErr;
      }
      if closed {
        return ErrClosed;
      }
      ghost var c := View();
      published := published + 1;
      var audience := if topic in registry then registry[topic] else {};
      var lost, disconnect := FanOut(audience, msg);
      HeardValid(c, msg, audience);
      Drop(topic, disconnect);
      HeardThenDropped(c, View(), topic, msg, disconnect);
      if lost {
        return ErrSlowSubscriber;
      }
      return Nil;
    }

    /** One iteration of the loop of Publish: the filter, then deliver. */
    method Offer(id: nat, msg: T) returns (lost: bool)
      requires id in subs && |subs[id].buf| <= cap
      modifies this`subs
      ensures subs == if old(subs)[id].accepts(msg) then old(subs)[id := Delivered(cap, policy, old(subs)[id], msg).0]
                      else old(subs)
      ensures lost <==> old(subs)[id].accepts(msg) && |old(subs)[id].buf| >= cap
    {
      if !subs[id].accepts(msg) {
        return false;
      }
      lost := Deliver(id, msg);
    }

    /** The loop of Publish under the read lock. */
    method FanOut(audience: set<nat>, msg: T) returns (lost: bool, disconnect: seq<nat>)
      requires forall id | id in audience :: id in subs && |subs[id].buf| <= cap
      modifies this`subs
      ensures subs == HeardIn(old(View()), msg, audience)
      ensures lost <==> LosersIn(old(View()), audience, msg) != {}
      ensures forall id :: id in disconnect <==> policy == Disconnect && id in LosersIn(old(View()), audience, msg)
    {
      ghost var c := View();
      ghost var losers := LosersIn(c, audience, msg);
      var todo := audience;
      lost, disconnect := false, [];
      while todo != {}
        invariant todo <= audience
        invariant subs == HeardIn(c, msg, audience - todo)
        invariant lost <==> !(losers <= todo)
        invariant forall id :: id in disconnect <==> policy == Disconnect && id in losers && id !in todo
      {
        var id :| id in todo;
        ghost var done := audience - todo;
        HeardOne(c, msg, done, id);
        var l := Offer(id, msg);
        todo := todo - {id};
        assert audience - todo == done + {id};
        if l {
          lost := true;
          if policy == Disconnect {
            disconnect := disconnect + [id];
          }
        }
      }
      assert audience - todo == audience;
    }

    /** The removals Publish does after releasing the read lock. */
    method Drop(topic: string, disconnect: seq<nat>)
      requires Valid()
      requires forall id | id in disconnect :: View().Registered(topic, id)
      modifies this
      ensures Valid() && published == old(published) && Dropped(old(View()), View(), topic, disconnect)
    {
      ghost var c := View();
      var i := 0;
      while i < |disconnect|
        invariant 0 <= i <= |disconnect| && Valid()
        invariant published == old(published) && Dropped(c, View(), topic, disconnect[..i])
      {
        ghost var b := View();
        var id := disconnect[i];
        Remove(topic, id);
        assert disconnect[..i + 1] == disconnect[..i] + [id];
        DroppedMore(c, b, topic, disconnect[..i], id);
        i := i + 1;
      }
      assert disconnect[..i] == disconnect;
    }
  }
}
