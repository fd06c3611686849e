/** pkg/pubsub: messages published one after the other arrive in order. */
module PubSubOrder {
  import opened Collections
  import opened Runs
  import opened PubSub
  import PubSubSafety

  ghost predicate Quiet<T>(s: State<T>) { forall p | p in s.pubs :: s.pubs[p].stage.Done? }

  /** Steps in which a publication only starts when all earlier ones have returned. */
  ghost predicate SeqNext<T>(s: State<T>, e: Event<T>, s': State<T>) {
    Next(s, e, s') && (e.Begin? ==> Quiet(s))
  }

  /** The messages of a publish history that a subscription on `topic` with this filter should see. */
  ghost function Filtered<T>(h: seq<(string, T)>, topic: string, accepts: T -> bool): seq<T> {
    if h == [] then []
    else
      Filtered(Front(h), topic, accepts)
      + (if Last(h).0 == topic && accepts(Last(h).1) then [Last(h).1] else [])
  }

  /** What has been published for a subscription since it subscribed. */
  ghost function Due<T>(sub: Sub<T>, h: seq<(string, T)>): seq<T>
    requires sub.since <= |h|
  {
    Filtered(h[sub.since..], sub.topic, sub.accepts)
  }

  lemma DueGrows<T>(sub: Sub<T>, h: seq<(string, T)>, x: (string, T))
    requires sub.since <= |h|
    ensures Due(sub, h + [x]) == Due(sub, h) + (if x.0 == sub.topic && sub.accepts(x.1) then [x.1] else [])
  {
    var g := (h + [x])[sub.since..];
    assert g == h[sub.since..] + [x];
    assert Front(g) == h[sub.since..];
  }

  lemma DueLast<T>(sub: Sub<T>, h: seq<(string, T)>)
    requires sub.since < |h|
    ensures Due(sub, h)
            == Due(sub, Front(h)) + (if Last(h).0 == sub.topic && sub.accepts(Last(h).1) then [Last(h).1] else [])
  {
    assert h == Front(h) + [Last(h)];
    DueGrows(sub, Front(h), Last(h));
  }

  /** What is due depends only on topic, filter and the time of subscribing. */
  lemma DueSame<T>(a: Sub<T>, b: Sub<T>, h: seq<(string, T)>)
    requires a.topic == b.topic && a.accepts == b.accepts && a.since == b.since <= |h|
    ensures Due(a, h) == Due(b, h)
  {
  }

  ghost predicate Prefix<T(!new)>(a: seq<T>, b: seq<T>) { a <= b }

  /** Received and buffered messages are in the order of `log`; under DropOldest the buffer is its end. */
  ghost predicate InOrder<T(!new)>(policy: Policy, sub: Sub<T>, log: seq<T>) {
    Subsequence(sub.received + sub.buf, log) && (policy == DropOldest ==> Suffix(sub.buf, log))
  }

  lemma TakeInOrder<T(!new)>(policy: Policy, sub: Sub<T>, log: seq<T>, m: T, parked: bool)
    requires InOrder(policy, sub, log)
    ensures InOrder(policy, sub.Take(m, parked), log + [m])
  {
    SubsequenceAppend(sub.received + sub.buf, log, m);
    var t := sub.Take(m, parked);
    assert t.received + t.buf == sub.received + sub.buf + [m];
  }

  lemma LoseInOrder<T(!new)>(policy: Policy, sub: Sub<T>, log: seq<T>, m: T)
    requires InOrder(policy, sub, log) && (policy == DropOldest ==> sub.buf == [])
    ensures InOrder(policy, sub.Lose(m), log + [m])
  {
    SubsequenceWiden(sub.received + sub.buf, log, m);
  }

  lemma EvictInOrder<T(!new)>(policy: Policy, sub: Sub<T>, log: seq<T>)
    requires InOrder(policy, sub, log)
    ensures InOrder(policy, sub.Evict(), log)
  {
    if sub.buf != [] {
      var a, i := sub.received + sub.buf, |sub.received|;
      SubsequenceDelete(a, log, i);
      assert a[..i] + a[i + 1..] == sub.received + sub.buf[1..];
    }
  }

  lemma ReceiveInOrder<T(!new)>(policy: Policy, sub: Sub<T>, log: seq<T>)
    requires InOrder(policy, sub, log) && sub.buf != []
    ensures InOrder(policy, sub.Receive(), log)
  {
    var r := sub.Receive();
    assert r.received + r.buf == sub.received + sub.buf;
  }

  // ----- one subscription, with the publisher that may be in the middle of delivering to it -----

  /** Publisher `pub` and subscription `id` agree on the order so far. While pub holds its message, that
      message is the last one offered and not yet part of the order. */
  ghost predicate Agree<T(!new)>(cap: nat, policy: Policy, id: nat, sub: Sub<T>, pub: Pub<T>) {
    if pub.Holds(id) then
      && sub.offered != [] && Last(sub.offered) == pub.msg
      && InOrder(policy, sub, Front(sub.offered))
      && policy == DropOldest
      && (pub.stage.Making? ==> cap == 0 || |sub.buf| < cap)
    else
      InOrder(policy, sub, sub.offered)
  }

  lemma FirstSendAgrees<T(!new)>(cap: nat, policy: Policy, id: nat, sub: Sub<T>, pub: Pub<T>, parked: bool)
    requires pub.stage.Scanning? && Agree(cap, policy, id, sub, pub)
    ensures var (sub', pub') := FirstSend(cap, policy, id, sub, pub, parked); Agree(cap, policy, id, sub', pub')
  {
    var o := sub.(offered := sub.offered + [pub.msg]);
    assert Front(o.offered) == sub.offered;
    assert InOrder(policy, o, sub.offered);
    if o.Takes(cap, parked) {
      TakeInOrder(policy, o, sub.offered, pub.msg, parked);
    } else if policy != DropOldest {
      LoseInOrder(policy, o, sub.offered, pub.msg);
    }
  }

  lemma MakeSpaceAgrees<T(!new)>(cap: nat, policy: Policy, sub: Sub<T>, pub: Pub<T>)
    requires pub.stage.Refused? && Agree(cap, policy, pub.stage.id, sub, pub) && |sub.buf| <= cap
    ensures var (sub', pub') := MakeSpace(pub.stage.id, sub, pub); Agree(cap, policy, pub.stage.id, sub', pub')
  {
    EvictInOrder(policy, sub, Front(sub.offered));
  }

  lemma SecondSendAgrees<T(!new)>(cap: nat, policy: Policy, sub: Sub<T>, pub: Pub<T>, parked: bool)
    requires pub.stage.Making? && Agree(cap, policy, pub.stage.id, sub, pub) && |sub.buf| <= cap
    ensures var (sub', pub') := SecondSend(cap, sub, pub, parked); Agree(cap, policy, pub.stage.id, sub', pub')
  {
    assert sub.offered == Front(sub.offered) + [pub.msg];
    if sub.Takes(cap, parked) {
      TakeInOrder(policy, sub, Front(sub.offered), pub.msg, parked);
    } else {
      LoseInOrder(policy, sub, Front(sub.offered), pub.msg);
    }
  }

  // ----- all subscriptions -----

  ghost predicate OneActive<T>(s: State<T>) {
    forall p, q | p in s.pubs && q in s.pubs && !s.pubs[p].stage.Done? && !s.pubs[q].stage.Done? :: p == q
  }

  ghost predicate Held<T>(s: State<T>, id: nat) { exists p :: p in s.pubs && s.pubs[p].Holds(id) }

  ghost predicate OrderOk<T(!new)>(s: State<T>, id: nat)
    requires id in s.core.subs
  {
    var sub := s.core.subs[id];
    && (forall p | p in s.pubs && s.pubs[p].Holds(id) :: Agree(s.core.cap, s.core.policy, id, sub, s.pubs[p]))
    && (!Held(s, id) ==> InOrder(s.core.policy, sub, sub.offered))
  }

  /** A publisher under the read lock is the latest in the history and its audience is the topic's. */
  ghost predicate Latest<T(!new)>(s: State<T>, p: nat)
    requires p in s.pubs
  {
    var pub := s.pubs[p];
    pub.HoldsLock() ==>
      && s.history != [] && Last(s.history) == (pub.topic, pub.msg)
      && pub.audience == s.core.Audience(pub.topic)
      && forall id | id in pub.audience && id in s.core.subs :: s.core.subs[id].since < |s.history|
  }

  ghost predicate Waiting<T>(s: State<T>, id: nat) {
    exists p :: p in s.pubs && s.pubs[p].HoldsLock() && id in s.pubs[p].todo
  }

  ghost predicate HistoryOk<T(!new)>(s: State<T>, id: nat)
    requires id in s.core.subs
  {
    var sub := s.core.subs[id];
    && sub.since <= |s.history|
    && Prefix(sub.offered, Due(sub, s.history))
    && (s.core.Registered(sub.topic, id) ==>
          if Waiting(s, id) then sub.since < |s.history| && sub.offered == Due(sub, Front(s.history))
          else sub.offered == Due(sub, s.history))
  }

  ghost predicate SeqInv<T(!new)>(s: State<T>) {
    && Inv(s)
    && OneActive(s)
    && (forall p | p in s.pubs :: Latest(s, p))
    && (forall id | id in s.core.subs :: OrderOk(s, id) && HistoryOk(s, id))
  }

  lemma StepOneActive<T>(s: State<T>, e: Event<T>, s': State<T>)
    requires OneActive(s) && SeqNext(s, e, s')
    ensures OneActive(s')
  {
    assert forall p | p in s'.pubs && !s'.pubs[p].stage.Done? ::
        (p in s.pubs && !s.pubs[p].stage.Done?) || (e.Begin? && p == e.p);
  }

  // ----- order -----

  /** Nothing that the order of subscription j depends on changed. */
  ghost predicate Untouched<T>(s: State<T>, s': State<T>, j: nat) {
    && j in s.core.subs && j in s'.core.subs
    && PubSubSafety.SameLogs(s.core.subs[j], s'.core.subs[j])
    && s'.core.cap == s.core.cap && s'.core.policy == s.core.policy
    && SameHolders(s.pubs, s'.pubs, j)
  }

  ghost predicate SameHolders<T>(pubs: map<nat, Pub<T>>, pubs': map<nat, Pub<T>>, j: nat) {
    && (forall p | p in pubs' && pubs'[p].Holds(j) ::
          p in pubs && pubs[p].Holds(j) && pubs[p].msg == pubs'[p].msg && pubs[p].stage == pubs'[p].stage)
    && (forall p | p in pubs && pubs[p].Holds(j) :: p in pubs' && pubs'[p].Holds(j))
  }

  lemma OneChanges<T>(pubs: map<nat, Pub<T>>, p: nat, pub: Pub<T>, j: nat)
    requires !pub.Holds(j) && (p in pubs ==> !pubs[p].Holds(j))
    ensures SameHolders(pubs, pubs[p := pub], j)
  {
  }

  lemma OrderUntouched<T(!new)>(s: State<T>, s': State<T>, j: nat)
    requires Untouched(s, s', j) && OrderOk(s, j)
    ensures OrderOk(s', j)
  {
    var sub, sub' := s.core.subs[j], s'.core.subs[j];
    forall p | p in s'.pubs && s'.pubs[p].Holds(j) ensures Agree(s'.core.cap, s'.core.policy, j, sub', s'.pubs[p]) {
      assert Agree(s.core.cap, s.core.policy, j, sub, s.pubs[p]);
    }
    if Held(s, j) {
      var p :| p in s.pubs && s.pubs[p].Holds(j);
      assert p in s'.pubs && s'.pubs[p].Holds(j);
    }
  }

  /** The only publisher that can hold anything is the active one. */
  lemma OnlyActive<T>(s: State<T>, p: nat, q: nat, id: nat)
    requires OneActive(s) && p in s.pubs && !s.pubs[p].stage.Done? && q in s.pubs && s.pubs[q].Holds(id)
    ensures q == p
  {
  }

  lemma DeliverOrder<T(!new)>(s: State<T>, e: Event<T>, s': State<T>)
    requires SeqInv(s) && Next(s, e, s') && (e.Offer? || e.MakeRoom? || e.Again?)
    ensures OrderOk(s', Target(s, e))
  {
    var id := Target(s, e);
    var sub, pub := s.core.subs[id], s.pubs[e.p];
    assert SubOk(s.core, s.cancelled, id);
    if Held(s, id) {
      var q :| q in s.pubs && s.pubs[q].Holds(id);
      OnlyActive(s, e.p, q, id);
    }
    assert Agree(s.core.cap, s.core.policy, id, sub, pub) by { assert OrderOk(s, id); }
    if e.Offer? {
      FirstSendAgrees(s.core.cap, s.core.policy, id, sub, pub, e.parked);
    } else if e.MakeRoom? {
      MakeSpaceAgrees(s.core.cap, s.core.policy, sub, pub);
    } else {
      SecondSendAgrees(s.core.cap, s.core.policy, sub, pub, e.parked);
    }
    var (sub', pub') := DeliverStep(s, e);
    assert Agree(s.core.cap, s.core.policy, id, sub', pub');
    AgreeIsOrder(s, s', e.p, id, sub', pub');
  }

  lemma AgreeIsOrder<T(!new)>(s: State<T>, s': State<T>, p: nat, id: nat, sub': Sub<T>, pub': Pub<T>)
    requires OneActive(s) && p in s.pubs && !s.pubs[p].stage.Done?
    requires s'.core == s.core.Put(id, sub') && s'.pubs == s.pubs[p := pub']
    requires Agree(s.core.cap, s.core.policy, id, sub', pub')
    ensures OrderOk(s', id)
  {
    forall q | q in s'.pubs && s'.pubs[q].Holds(id) ensures q == p {
      if q != p { OnlyActive(s, p, q, id); }
    }
    if !Held(s', id) { assert !(p in s'.pubs && s'.pubs[p].Holds(id)); }
  }

  lemma ConsumeOrder<T(!new)>(s: State<T>, s': State<T>, id: nat)
    requires Next(s, Consume(id), s') && OrderOk(s, id)
    ensures OrderOk(s', id)
  {
    var sub, sub' := s.core.subs[id], s'.core.subs[id];
    forall p | p in s'.pubs && s'.pubs[p].Holds(id) ensures Agree(s'.core.cap, s'.core.policy, id, sub', s'.pubs[p]) {
      assert Agree(s.core.cap, s.core.policy, id, sub, s.pubs[p]);
      ReceiveInOrder(s.core.policy, sub, Front(sub.offered));
    }
    assert s'.pubs == s.pubs;
    if !Held(s', id) {
      assert !Held(s, id);
      ReceiveInOrder(s.core.policy, sub, sub.offered);
    }
  }

  /** Who holds a message for j changes only in a step of deliver at j. */
  lemma StepHolders<T>(s: State<T>, e: Event<T>, s': State<T>, j: nat)
    requires Next(s, e, s')
    requires e.Offer? || e.MakeRoom? || e.Again? ==> j != Target(s, e)
    ensures SameHolders(s.pubs, s'.pubs, j)
  {
    if e.Offer? || e.MakeRoom? || e.Again? || e.Begin? || e.Skip? || e.Unlock? || e.RemoveOne? || e.Return? {
      OneChanges(s.pubs, e.p, s'.pubs[e.p], j);
    }
  }

  lemma StepLogs<T>(s: State<T>, e: Event<T>, s': State<T>, j: nat)
    requires Next(s, e, s') && j in s.core.subs
    requires e.Offer? || e.MakeRoom? || e.Again? ==> j != Target(s, e)
    requires e.Consume? ==> j != e.id
    ensures j in s'.core.subs && PubSubSafety.SameLogs(s.core.subs[j], s'.core.subs[j])
  {
    if e.SubscribeCall? || e.Watcher? || e.CloseCall? || e.RemoveOne? || e.CancelCtx? {
      PubSubSafety.LockedMoves(s, e, s', j);
    }
  }

  /** Nobody holds a message for a subscription that does not exist yet. */
  lemma NewNotHeld<T(!new)>(s: State<T>, e: Event<T>, s': State<T>, j: nat)
    requires PubsInv(s) && Next(s, e, s') && j !in s.core.subs && j in s'.core.subs
    ensures e.SubscribeCall? && !Held(s', j) && s'.pubs == s.pubs
    ensures var sub := s'.core.subs[j];
            sub.offered == sub.received == sub.buf == sub.dropped == [] && sub.since == |s.history|
  {
    assert e.SubscribeCall?;
    forall p | p in s.pubs ensures !s.pubs[p].Holds(j) { assert PubOk(s.core, s.pubs[p]); }
  }

  lemma StepOrder<T(!new)>(s: State<T>, e: Event<T>, s': State<T>, j: nat)
    requires SeqInv(s) && SeqNext(s, e, s') && j in s'.core.subs
    ensures OrderOk(s', j)
  {
    if j !in s.core.subs {
      NewNotHeld(s, e, s', j);
    } else {
      assert OrderOk(s, j);
      if (e.Offer? || e.MakeRoom? || e.Again?) && j == Target(s, e) {
        DeliverOrder(s, e, s');
      } else if e.Consume? && j == e.id {
        ConsumeOrder(s, s', j);
      } else {
        StepHolders(s, e, s', j);
        StepLogs(s, e, s', j);
        PubSubSafety.StepKept(s, e, s');
        OrderUntouched(s, s', j);
      }
    }
  }

  // ----- history -----

  lemma BeginLatest<T(!new)>(s: State<T>, e: Event<T>, s': State<T>)
    requires SeqNext(s, e, s') && e.Begin? && forall id | id in s.core.subs :: HistoryOk(s, id)
    ensures Latest(s', e.p)
  {
    forall id | id in s'.pubs[e.p].audience && id in s'.core.subs && s'.pubs[e.p].HoldsLock()
      ensures s'.core.subs[id].since < |s'.history|
    {
      assert HistoryOk(s, id);
    }
  }

  /** A publisher that holds the read lock after a step held it before, and nothing was published meanwhile. */
  lemma LockSteady<T>(s: State<T>, e: Event<T>, s': State<T>, p: nat)
    requires Next(s, e, s') && p in s.pubs && p in s'.pubs && s'.pubs[p].HoldsLock()
    ensures s.pubs[p].HoldsLock()
    ensures var a, b := s.pubs[p], s'.pubs[p]; a.topic == b.topic && a.msg == b.msg && a.audience == b.audience
    ensures !e.Begin? ==> s'.history == s.history
  {
  }

  lemma StepLatest<T(!new)>(s: State<T>, e: Event<T>, s': State<T>, p: nat)
    requires Next(s, e, s') && p in s.pubs && p in s'.pubs && (e.Begin? ==> !s.pubs[p].HoldsLock())
    requires Latest(s, p) && PubOk(s.core, s.pubs[p])
    ensures Latest(s', p)
  {
    if s'.pubs[p].HoldsLock() {
      LockSteady(s, e, s', p);
      PubSubSafety.StepKept(s, e, s');
      assert !s.NoReaders();
      forall id | id in s'.pubs[p].audience && id in s'.core.subs ensures s'.core.subs[id].since < |s'.history| {
        assert id in s.core.subs;
      }
    }
  }

  /** The history of a subscription survives any step that neither offers to it nor publishes. */
  lemma HistorySame<T(!new)>(s: State<T>, s': State<T>, j: nat)
    requires j in s.core.subs && HistoryOk(s, j) && j in s'.core.subs
    requires var a, b := s.core.subs[j], s'.core.subs[j];
             a.topic == b.topic && a.accepts == b.accepts && a.since == b.since && a.offered == b.offered
    requires s'.history == s.history
    requires s'.core.Registered(s.core.subs[j].topic, j) ==> s.core.Registered(s.core.subs[j].topic, j)
    requires Waiting(s', j) <==> Waiting(s, j)
    ensures HistoryOk(s', j)
  {
    DueSame(s.core.subs[j], s'.core.subs[j], s.history);
    if Waiting(s, j) && s'.core.Registered(s.core.subs[j].topic, j) {
      DueSame(s.core.subs[j], s'.core.subs[j], Front(s.history));
    }
  }

  /** The latest publication is settled for j: offered if it is for j, skipped if not. */
  lemma HistoryCaughtUp<T(!new)>(s: State<T>, s': State<T>, j: nat, topic: string, msg: T)
    requires j in s.core.subs && HistoryOk(s, j) && j in s'.core.subs
    requires var a, b := s.core.subs[j], s'.core.subs[j];
             && a.topic == b.topic == topic && a.accepts == b.accepts && a.since == b.since
             && b.offered == if a.accepts(msg) then a.offered + [msg] else a.offered
    requires s'.history == s.history && s.history != [] && Last(s.history) == (topic, msg)
    requires s.core.Registered(topic, j) && Waiting(s, j) && !Waiting(s', j)
    ensures HistoryOk(s', j)
  {
    var h, sub, sub' := s.history, s.core.subs[j], s'.core.subs[j];
    DueLast(sub, h);
    assert sub.offered == Due(sub, Front(h));
    DueSame(sub, sub', h);
    assert sub'.offered == Due(sub', h);
  }

  lemma WaitingOne<T>(s: State<T>, s': State<T>, p: nat, j: nat)
    requires p in s.pubs && p in s'.pubs && s'.pubs == s.pubs[p := s'.pubs[p]]
    requires s'.pubs[p].HoldsLock() && j in s'.pubs[p].todo <==> s.pubs[p].HoldsLock() && j in s.pubs[p].todo
    ensures Waiting(s', j) <==> Waiting(s, j)
  {
    if Waiting(s, j) {
      var q :| q in s.pubs && s.pubs[q].HoldsLock() && j in s.pubs[q].todo;
      assert q in s'.pubs && s'.pubs[q].HoldsLock() && j in s'.pubs[q].todo;
    }
    if Waiting(s', j) {
      var q :| q in s'.pubs && s'.pubs[q].HoldsLock() && j in s'.pubs[q].todo;
      assert q in s.pubs && s.pubs[q].HoldsLock() && j in s.pubs[q].todo;
    }
  }

  /** Steps that neither take the write lock, nor publish, nor settle the latest publication for j. */
  ghost predicate PlainFor<T>(e: Event<T>, j: nat) {
    e.CancelCtx? || e.Consume? || e.Unlock? || e.Return? || e.MakeRoom? || e.Again? || ((e.Offer? || e.Skip?) && j != e.id)
  }

  lemma WaitingKept<T>(s: State<T>, e: Event<T>, s': State<T>, j: nat)
    requires Next(s, e, s') && PlainFor(e, j)
    ensures Waiting(s', j) <==> Waiting(s, j)
  {
    if !e.CancelCtx? && !e.Consume? { WaitingOne(s, s', e.p, j); } else { assert s'.pubs == s.pubs; }
  }

  lemma OfferedKept<T>(s: State<T>, e: Event<T>, s': State<T>, j: nat)
    requires Next(s, e, s') && PlainFor(e, j) && j in s.core.subs
    ensures j in s'.core.subs && s'.core.subs[j].offered == s.core.subs[j].offered
    ensures s'.core.registry == s.core.registry && s'.history == s.history
  {
  }

  lemma ReachHistory<T(!new)>(s: State<T>, e: Event<T>, s': State<T>)
    requires Next(s, e, s') && (e.Offer? || e.Skip?) && OneActive(s) && RegistryOk(s.core)
    requires Latest(s, e.p) && PubOk(s.core, s.pubs[e.p]) && HistoryOk(s, e.id)
    ensures HistoryOk(s', e.id)
  {
    var p, j := e.p, e.id;
    assert p in s.pubs && s.pubs[p].HoldsLock() && j in s.pubs[p].todo;
    assert s.core.Registered(s.pubs[p].topic, j);
    assert s'.pubs[p].todo == s.pubs[p].todo - {j};
    NobodyWaits(s, s', p, j);
    ReachEffect(s, e, s');
    HistoryCaughtUp(s, s', j, s.pubs[p].topic, s.pubs[p].msg);
  }

  /** The only publisher there is has dealt with j. */
  lemma NobodyWaits<T>(s: State<T>, s': State<T>, p: nat, j: nat)
    requires OneActive(s) && p in s.pubs && !s.pubs[p].stage.Done? && p in s'.pubs && s'.pubs == s.pubs[p := s'.pubs[p]]
    requires j !in s'.pubs[p].todo
    ensures !Waiting(s', j)
  {
  }

  lemma ReachEffect<T>(s: State<T>, e: Event<T>, s': State<T>)
    requires Next(s, e, s') && (e.Offer? || e.Skip?)
    ensures s'.history == s.history && e.id in s.core.subs && e.id in s'.core.subs
    ensures var a, b, msg := s.core.subs[e.id], s'.core.subs[e.id], s.pubs[e.p].msg;
            && a.topic == b.topic && a.accepts == b.accepts && a.since == b.since
            && b.offered == if a.accepts(msg) then a.offered + [msg] else a.offered
  {
  }

  /** A publication that finds the broker open: the subscriptions of its topic now wait for it. */
  lemma PublishedHistory<T(!new)>(s: State<T>, s': State<T>, j: nat, topic: string, msg: T)
    requires j in s.core.subs && HistoryOk(s, j) && RegistryOk(s.core) && !Waiting(s, j)
    requires s'.core == s.core && s'.history == s.history + [(topic, msg)]
    requires Waiting(s', j) <==> j in s.core.Audience(topic)
    ensures HistoryOk(s', j)
  {
    var sub := s.core.subs[j];
    DueGrows(sub, s.history, (topic, msg));
    assert Front(s'.history) == s.history;
    assert j in s.core.Audience(topic) ==> sub.topic == topic;
  }

  lemma BeginHistory<T(!new)>(s: State<T>, e: Event<T>, s': State<T>, j: nat)
    requires SeqNext(s, e, s') && e.Begin? && RegistryOk(s.core) && j in s.core.subs && HistoryOk(s, j)
    ensures HistoryOk(s', j)
  {
    assert !Waiting(s, j);
    assert forall p | p in s'.pubs && p != e.p :: !s'.pubs[p].HoldsLock();
    if s'.pubs[e.p].HoldsLock() {
      assert Waiting(s', j) <==> j in s.core.Audience(e.topic) by {
        if j in s.core.Audience(e.topic) { assert e.p in s'.pubs && s'.pubs[e.p].HoldsLock() && j in s'.pubs[e.p].todo; }
      }
      PublishedHistory(s, s', j, e.topic, e.msg);
    } else {
      assert !Waiting(s', j);
      HistorySame(s, s', j);
    }
  }

  lemma LockedHistory<T(!new)>(s: State<T>, e: Event<T>, s': State<T>, j: nat)
    requires RegistryOk(s.core) && Next(s, e, s') && j in s.core.subs && HistoryOk(s, j)
    requires e.SubscribeCall? || e.Watcher? || e.CloseCall? || e.RemoveOne?
    ensures HistoryOk(s', j)
  {
    PubSubSafety.StepKept(s, e, s');
    PubSubSafety.LockedMoves(s, e, s', j);
    assert s.NoReaders() && s'.NoReaders() && !Waiting(s, j) && !Waiting(s', j);
    RegisteredShrinks(s, e, s', j);
    HistorySame(s, s', j);
  }

  lemma RegisteredShrinks<T>(s: State<T>, e: Event<T>, s': State<T>, j: nat)
    requires RegistryOk(s.core) && Next(s, e, s') && j in s.core.subs
    requires e.SubscribeCall? || e.Watcher? || e.CloseCall? || e.RemoveOne?
    ensures s'.core.Registered(s.core.subs[j].topic, j) ==> s.core.Registered(s.core.subs[j].topic, j)
  {
    var t := s.core.subs[j].topic;
    if e.Watcher? { PubSubSafety.RemoveRegistered(s.core, s.core.subs[e.id].topic, e.id, t, j); }
    if e.RemoveOne? { PubSubSafety.RemoveRegistered(s.core, s.pubs[e.p].topic, s.pubs[e.p].disconnect[0], t, j); }
  }

  lemma PlainHistory<T(!new)>(s: State<T>, e: Event<T>, s': State<T>, j: nat)
    requires Next(s, e, s') && PlainFor(e, j) && j in s.core.subs && HistoryOk(s, j)
    ensures j in s'.core.subs && HistoryOk(s', j)
  {
    WaitingKept(s, e, s', j);
    OfferedKept(s, e, s', j);
    PubSubSafety.StepKept(s, e, s');
    HistorySame(s, s', j);
  }

  lemma StepHistory<T(!new)>(s: State<T>, e: Event<T>, s': State<T>, j: nat)
    requires SeqInv(s) && SeqNext(s, e, s') && j in s'.core.subs
    ensures HistoryOk(s', j)
  {
    if j !in s.core.subs {
      NewNotHeld(s, e, s', j);
      assert s.NoReaders() && !Waiting(s', j);
      assert s'.history[|s.history|..] == [];
    } else {
      assert HistoryOk(s, j);
      if (e.Offer? || e.Skip?) && j == e.id {
        assert Latest(s, e.p) && PubOk(s.core, s.pubs[e.p]);
        ReachHistory(s, e, s');
      } else if e.Begin? {
        BeginHistory(s, e, s', j);
      } else if e.SubscribeCall? || e.Watcher? || e.CloseCall? || e.RemoveOne? {
        LockedHistory(s, e, s', j);
      } else {
        PlainHistory(s, e, s', j);
      }
    }
  }

  lemma StepSeq<T(!new)>(s: State<T>, e: Event<T>, s': State<T>)
    requires SeqInv(s) && SeqNext(s, e, s')
    ensures SeqInv(s')
  {
    PubSubSafety.StepInv(s, e, s');
    StepOneActive(s, e, s');
    forall p | p in s'.pubs ensures Latest(s', p) {
      if p in s.pubs {
        assert Latest(s, p) && PubOk(s.core, s.pubs[p]);
        StepLatest(s, e, s', p);
      } else {
        BeginLatest(s, e, s');
      }
    }
    forall j | j in s'.core.subs ensures OrderOk(s', j) && HistoryOk(s', j) {
      StepOrder(s, e, s', j);
      StepHistory(s, e, s', j);
    }
  }

  lemma RunSeq<T(!new)>(ss: seq<State<T>>, es: seq<Event<T>>, k: nat)
    requires Run(Init, SeqNext, ss, es) && k < |ss|
    ensures SeqInv(ss[k])
  {
    forall s: State<T>, e, s' | SeqInv(s) && SeqNext(s, e, s') ensures SeqInv(s') { StepSeq(s, e, s'); }
    Invariance(Init, SeqNext, SeqInv, ss, es, k);
  }

  /** The messages offered to a subscription, without one that is still in the publisher's hand. */
  ghost function SettledOffers<T>(s: State<T>, id: nat): seq<T>
    requires id in s.core.subs
  {
    var offered := s.core.subs[id].offered;
    if Held(s, id) && offered != [] then Front(offered) else offered
  }

  /** Publish order, for publications that do not overlap and any consumer, at every instant: what a subscription
      received and still has buffered is a subsequence of what it was offered, under DropOldest its buffer is the end
      of that, and what it was offered is a prefix of the accepted messages published on its topic since it
      subscribed. Whenever no publication is under way, a registered subscription was offered all of those. */
  lemma PublishOrder<T(!new)>(ss: seq<State<T>>, es: seq<Event<T>>, k: nat, id: nat)
    requires Run(Init, SeqNext, ss, es) && k < |ss| && id in ss[k].core.subs
    ensures var s, sub := ss[k], ss[k].core.subs[id];
            && Subsequence(sub.received + sub.buf, SettledOffers(s, id))
            && (s.core.policy == DropOldest ==> Suffix(sub.buf, SettledOffers(s, id)))
            && sub.since <= |s.history| && sub.offered <= Due(sub, s.history)
            && (Quiet(s) && s.core.Registered(sub.topic, id) ==> SettledOffers(s, id) == sub.offered == Due(sub, s.history))
  {
    RunSeq(ss, es, k);
    var s := ss[k];
    assert OrderOk(s, id) && HistoryOk(s, id);
    if Held(s, id) {
      var p :| p in s.pubs && s.pubs[p].Holds(id);
      assert Agree(s.core.cap, s.core.policy, id, s.core.subs[id], s.pubs[p]);
    }
    if Quiet(s) { assert !Held(s, id) && !Waiting(s, id); }
  }

  /** Under DropOldest with a buffer, a message published on its own always enters: the send after the
      eviction never fails. */
  lemma NewestEnters<T(!new)>(ss: seq<State<T>>, es: seq<Event<T>>, k: nat)
    requires Run(Init, SeqNext, ss, es) && k < |es| && es[k].Again? && ss[k].core.cap >= 1
    ensures Enabled(ss[k], es[k])
    ensures var s := ss[k];
            var id, p := s.pubs[es[k].p].stage.id, es[k].p;
            && s.core.subs[id].Takes(s.core.cap, es[k].parked)
            && ss[k + 1].core.subs[id] == s.core.subs[id].Take(s.pubs[p].msg, es[k].parked)
  {
    RunSeq(ss, es, k);
    var s, p := ss[k], es[k].p;
    assert SeqNext(s, es[k], ss[k + 1]);
    var id := s.pubs[p].stage.id;
    assert s.pubs[p].Holds(id);
    assert OrderOk(s, id);
    assert Agree(s.core.cap, s.core.policy, id, s.core.subs[id], s.pubs[p]);
  }
}
