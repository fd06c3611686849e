/** pkg/pubsub: one goroutine's messages arrive in order, whoever else publishes. */
module PubSubFifo {
  import opened Collections
  import opened Runs
  import opened PubSub
  import PubSubSafety

  /** What a consumer got and what it would get next. */
  ghost function Stream<T>(sub: Sub<T>): seq<T> { sub.received + sub.buf }

  ghost predicate Delivers<T>(e: Event<T>) { e.Offer? || e.MakeRoom? || e.Again? }

  /** The publications behind a subscription's stream, after a step: one more at the end if a message entered the
      channel, and the oldest buffered one gone if it was evicted. */
  ghost function SendersAfter<T>(log: seq<nat>, s: State<T>, e: Event<T>, s': State<T>, id: nat): seq<nat> {
    if !Delivers(e) || id !in s.core.subs || id !in s'.core.subs then log
    else
      var sub, sub' := s.core.subs[id], s'.core.subs[id];
      if |Stream(sub')| > |Stream(sub)| then log + [e.p]
      else if |Stream(sub')| < |Stream(sub)| && |sub.received| < |log| then Without(log, |sub.received|)
      else log
  }

  function Without<A>(xs: seq<A>, i: nat): seq<A>
    requires i < |xs|
  {
    xs[..i] + xs[i + 1..]
  }

  /** The publications whose copies make up the stream of subscription id in the k-th state of a run. */
  ghost function Senders<T>(ss: seq<State<T>>, es: seq<Event<T>>, k: nat, id: nat): seq<nat>
    requires |ss| == |es| + 1 && k < |ss|
  {
    if k == 0 then [] else SendersAfter(Senders(ss, es, k - 1, id), ss[k - 1], es[k - 1], ss[k], id)
  }

  // ----- every copy has its sender -----

  /** Copy i of the stream is the message of publication log[i], which has dealt with this subscription. */
  ghost predicate SentBy<T>(s: State<T>, id: nat, log: seq<nat>, i: nat)
    requires id in s.core.subs && |log| == |Stream(s.core.subs[id])| && i < |log|
  {
    && log[i] in s.pubs && Stream(s.core.subs[id])[i] == s.pubs[log[i]].msg
    && id in s.pubs[log[i]].reached && !s.pubs[log[i]].Holds(id)
  }

  /** Every copy of the stream has a sender, and no publication sent two. */
  ghost predicate Tagged<T(!new)>(s: State<T>, id: nat, log: seq<nat>) {
    if id !in s.core.subs then log == []
    else
      && |log| == |Stream(s.core.subs[id])|
      && (forall i | 0 <= i < |log| :: SentBy(s, id, log, i))
      && Distinct(log)
  }

  /** The publications of a stream stay what they were to it. */
  ghost predicate SendersKept<T>(s: State<T>, s': State<T>, id: nat) {
    forall p | p in s.pubs && id in s.pubs[p].reached && !s.pubs[p].Holds(id) ::
      p in s'.pubs && s'.pubs[p].msg == s.pubs[p].msg && id in s'.pubs[p].reached && !s'.pubs[p].Holds(id)
  }

  lemma OtherSendersKept<T>(s: State<T>, e: Event<T>, s': State<T>, id: nat)
    requires Next(s, e, s') && !Delivers(e)
    ensures SendersKept(s, s', id)
  {
    if e.Begin? || e.Skip? || e.Unlock? || e.RemoveOne? || e.Return? {
      assert s'.pubs == s.pubs[e.p := s'.pubs[e.p]];
    } else {
      assert s'.pubs == s.pubs;
    }
  }

  lemma StepSendersKept<T>(s: State<T>, e: Event<T>, s': State<T>, id: nat)
    requires Next(s, e, s') && PubsInv(s)
    ensures SendersKept(s, s', id)
  {
    if Delivers(e) {
      assert PubOk(s.core, s.pubs[e.p]);
      assert s'.pubs == s.pubs[e.p := DeliverStep(s, e).1];
    } else {
      OtherSendersKept(s, e, s', id);
    }
  }

  lemma SameStream<T(!new)>(s: State<T>, s': State<T>, id: nat, log: seq<nat>)
    requires Tagged(s, id, log) && SendersKept(s, s', id) && id in s.core.subs && id in s'.core.subs
    requires Stream(s'.core.subs[id]) == Stream(s.core.subs[id])
    ensures Tagged(s', id, log)
  {
    forall i | 0 <= i < |log| ensures SentBy(s', id, log, i) { assert SentBy(s, id, log, i); }
  }

  lemma LongerStream<T(!new)>(s: State<T>, s': State<T>, id: nat, log: seq<nat>, p: nat)
    requires Tagged(s, id, log) && SendersKept(s, s', id) && id in s.core.subs && id in s'.core.subs
    requires p in s'.pubs && id in s'.pubs[p].reached && !s'.pubs[p].Holds(id)
    requires Stream(s'.core.subs[id]) == Stream(s.core.subs[id]) + [s'.pubs[p].msg]
    requires p in s.pubs && (id !in s.pubs[p].reached || s.pubs[p].Holds(id))
    ensures Tagged(s', id, log + [p])
  {
    forall i | 0 <= i < |log| ensures log[i] != p && SentBy(s', id, log + [p], i) { assert SentBy(s, id, log, i); }
  }

  lemma EvictedStream<T(!new)>(s: State<T>, s': State<T>, id: nat, log: seq<nat>, n: nat)
    requires Tagged(s, id, log) && SendersKept(s, s', id) && id in s.core.subs && id in s'.core.subs && n < |log|
    requires Stream(s'.core.subs[id]) == Without(Stream(s.core.subs[id]), n)
    ensures Tagged(s', id, Without(log, n))
  {
    var log' := Without(log, n);
    forall i | 0 <= i < |log'| ensures SentBy(s', id, log', i) {
      assert SentBy(s, id, log, if i < n then i else i + 1);
    }
  }

  /** What a step of deliver does to the stream of its target: the message enters at the end, the oldest buffered one
      leaves, or nothing changes. */
  ghost predicate StreamMoves<T>(id: nat, sub: Sub<T>, sub': Sub<T>, pub': Pub<T>) {
    if |Stream(sub')| > |Stream(sub)| then
      Stream(sub') == Stream(sub) + [pub'.msg] && id in pub'.reached && !pub'.Holds(id)
    else if |Stream(sub')| < |Stream(sub)| then
      |sub.received| < |Stream(sub)| && Stream(sub') == Without(Stream(sub), |sub.received|)
    else Stream(sub') == Stream(sub)
  }

  lemma TakeStream<T>(sub: Sub<T>, m: T, parked: bool)
    ensures Stream(sub.Take(m, parked)) == Stream(sub) + [m]
  {
  }

  lemma FirstSendStream<T>(cap: nat, policy: Policy, id: nat, sub: Sub<T>, pub: Pub<T>, parked: bool)
    requires pub.stage.Scanning?
    ensures var (sub', pub') := FirstSend(cap, policy, id, sub, pub, parked); StreamMoves(id, sub, sub', pub')
  {
    TakeStream(sub.(offered := sub.offered + [pub.msg]), pub.msg, parked);
  }

  lemma MakeSpaceStream<T>(id: nat, sub: Sub<T>, pub: Pub<T>)
    ensures var (sub', pub') := MakeSpace(id, sub, pub); StreamMoves(id, sub, sub', pub')
  {
    if sub.buf != [] { assert Stream(sub.Evict()) == Without(Stream(sub), |sub.received|); }
  }

  lemma SecondSendStream<T>(cap: nat, id: nat, sub: Sub<T>, pub: Pub<T>, parked: bool)
    requires pub.stage.Making? && id in pub.reached
    ensures var (sub', pub') := SecondSend(cap, sub, pub, parked); StreamMoves(id, sub, sub', pub')
  {
    TakeStream(sub, pub.msg, parked);
  }

  lemma TargetStream<T>(s: State<T>, e: Event<T>, s': State<T>)
    requires Next(s, e, s') && Delivers(e) && PubOk(s.core, s.pubs[e.p])
    ensures var id, pub := Target(s, e), s.pubs[e.p];
            && id in s.core.subs && id in s'.core.subs
            && (id !in pub.reached || pub.Holds(id))
            && StreamMoves(id, s.core.subs[id], s'.core.subs[id], s'.pubs[e.p])
  {
    var id := Target(s, e);
    var sub, pub := s.core.subs[id], s.pubs[e.p];
    assert (s'.core.subs[id], s'.pubs[e.p]) == DeliverStep(s, e);
    match e
    case Offer(_, _, parked) => FirstSendStream(s.core.cap, s.core.policy, id, sub, pub, parked);
    case MakeRoom(_) => MakeSpaceStream(id, sub, pub);
    case Again(_, parked) => assert pub.Holds(id); SecondSendStream(s.core.cap, id, sub, pub, parked);
  }

  /** All other steps leave every stream alone. */
  lemma OtherStreams<T>(s: State<T>, e: Event<T>, s': State<T>, id: nat)
    requires Next(s, e, s') && id in s.core.subs && (Delivers(e) ==> id != Target(s, e))
    ensures id in s'.core.subs && Stream(s'.core.subs[id]) == Stream(s.core.subs[id])
  {
    if e.SubscribeCall? || e.Watcher? || e.CloseCall? || e.RemoveOne? || e.CancelCtx? {
      PubSubSafety.LockedMoves(s, e, s', id);
    }
  }

  lemma StepTagged<T(!new)>(s: State<T>, e: Event<T>, s': State<T>, id: nat, log: seq<nat>)
    requires Next(s, e, s') && PubsInv(s) && Tagged(s, id, log)
    ensures Tagged(s', id, SendersAfter(log, s, e, s', id))
  {
    StepSendersKept(s, e, s', id);
    if id !in s.core.subs {
      if id in s'.core.subs { assert Stream(s'.core.subs[id]) == []; }
    } else if Delivers(e) && id == Target(s, e) {
      assert PubOk(s.core, s.pubs[e.p]);
      TargetStream(s, e, s');
      var sub, sub' := s.core.subs[id], s'.core.subs[id];
      if |Stream(sub')| > |Stream(sub)| {
        LongerStream(s, s', id, log, e.p);
      } else if |Stream(sub')| < |Stream(sub)| {
        EvictedStream(s, s', id, log, |sub.received|);
      } else {
        SameStream(s, s', id, log);
      }
    } else {
      OtherStreams(s, e, s', id);
      SameStream(s, s', id, log);
    }
  }

  lemma {:induction false} RunTagged<T(!new)>(ss: seq<State<T>>, es: seq<Event<T>>, k: nat, id: nat)
    requires Run(Init, Next, ss, es) && k < |ss|
    ensures Tagged(ss[k], id, Senders(ss, es, k, id))
    decreases k
  {
    if k > 0 {
      RunTagged(ss, es, k - 1, id);
      PubSubSafety.RunInv(ss, es, k - 1);
      assert Next(ss[k - 1], es[k - 1], ss[k - 1 + 1]);
      StepTagged(ss[k - 1], es[k - 1], ss[k], id, Senders(ss, es, k - 1, id));
    }
  }

  // ----- order -----

  /** Every copy of p comes before every copy of q. */
  ghost predicate Precedes(log: seq<nat>, p: nat, q: nat) {
    forall i, j | 0 <= i < |log| && 0 <= j < |log| && log[i] == p && log[j] == q :: i < j
  }

  /** A step of deliver belongs to a publication that has not returned, and one that has returned stays so. */
  lemma ReturnedStays<T>(s: State<T>, e: Event<T>, s': State<T>, p: nat)
    requires Next(s, e, s') && p in s.pubs && s.pubs[p].stage.Done?
    ensures p in s'.pubs && s'.pubs[p].stage.Done? && (Delivers(e) ==> e.p != p)
  {
  }

  /** Once p has returned, a step keeps its copies ahead of those of q. */
  lemma StepPrecedes<T>(log: seq<nat>, s: State<T>, e: Event<T>, s': State<T>, id: nat, p: nat, q: nat)
    requires Precedes(log, p, q) && (Delivers(e) ==> e.p != p)
    ensures Precedes(SendersAfter(log, s, e, s', id), p, q)
  {
  }

  lemma {:induction false} KeepsAhead<T(!new)>(ss: seq<State<T>>, es: seq<Event<T>>, j: nat, k: nat, p: nat, q: nat, id: nat)
    requires Run(Init, Next, ss, es) && j <= k < |ss| && p in ss[j].pubs && ss[j].pubs[p].stage.Done?
    requires Precedes(Senders(ss, es, j, id), p, q)
    ensures p in ss[k].pubs && ss[k].pubs[p].stage.Done? && Precedes(Senders(ss, es, k, id), p, q)
    decreases k
  {
    if j < k {
      KeepsAhead(ss, es, j, k - 1, p, q, id);
      assert Next(ss[k - 1], es[k - 1], ss[k - 1 + 1]);
      ReturnedStays(ss[k - 1], es[k - 1], ss[k], p);
      StepPrecedes(Senders(ss, es, k - 1, id), ss[k - 1], es[k - 1], ss[k], id, p, q);
    }
  }

  /** Order in every interleaving, whoever else publishes: if Publish p had returned before Publish q was called, as it
      has when one goroutine makes both calls, then on every subscription and at every later instant the copy of p
      comes before the copy of q in what was received and is still buffered. Each has at most one copy there, and it
      is its message. */
  lemma GoroutineOrder<T(!new)>(ss: seq<State<T>>, es: seq<Event<T>>, d: nat, b: nat, k: nat, p: nat, q: nat, id: nat)
    requires Run(Init, Next, ss, es) && d <= b < k < |ss| && id in ss[k].core.subs
    requires p in ss[d].pubs && ss[d].pubs[p].stage.Done? && es[b].Begin? && es[b].p == q
    ensures var log, stream := Senders(ss, es, k, id), Stream(ss[k].core.subs[id]);
            && |log| == |stream| && Distinct(log)
            && (forall i | 0 <= i < |log| :: log[i] in ss[k].pubs && stream[i] == ss[k].pubs[log[i]].msg)
            && Precedes(log, p, q)
  {
    NotYetSent(ss, es, b, q, id);
    Returned(ss, es, d, b, p);
    KeepsAhead(ss, es, b, k, p, q, id);
    RunTagged(ss, es, k, id);
    var log := Senders(ss, es, k, id);
    forall i | 0 <= i < |log| ensures log[i] in ss[k].pubs && Stream(ss[k].core.subs[id])[i] == ss[k].pubs[log[i]].msg {
      assert SentBy(ss[k], id, log, i);
    }
  }

  /** A publication that has not begun has sent nothing. */
  lemma NotYetSent<T(!new)>(ss: seq<State<T>>, es: seq<Event<T>>, b: nat, q: nat, id: nat)
    requires Run(Init, Next, ss, es) && b < |es| && es[b].Begin? && es[b].p == q
    ensures q !in Senders(ss, es, b, id)
  {
    RunTagged(ss, es, b, id);
    assert Next(ss[b], es[b], ss[b + 1]);
    var log := Senders(ss, es, b, id);
    forall i | 0 <= i < |log| ensures log[i] != q { assert SentBy(ss[b], id, log, i); }
  }

  lemma {:induction false} Returned<T(!new)>(ss: seq<State<T>>, es: seq<Event<T>>, j: nat, k: nat, p: nat)
    requires Run(Init, Next, ss, es) && j <= k < |ss| && p in ss[j].pubs && ss[j].pubs[p].stage.Done?
    ensures p in ss[k].pubs && ss[k].pubs[p].stage.Done?
    decreases k
  {
    if j < k {
      Returned(ss, es, j, k - 1, p);
      assert Next(ss[k - 1], es[k - 1], ss[k - 1 + 1]);
      ReturnedStays(ss[k - 1], es[k - 1], ss[k], p);
    }
  }
}
