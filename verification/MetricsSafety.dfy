/** pkg/metrics: no observation is lost, and what a scrape may see. */
module MetricsSafety {
  import opened Collections
  import opened Runs
  import opened Metrics

  // ----- one live series per key -----

  ghost predicate RegistryOk(s: State) {
    && (forall k | k in s.registry :: s.registry[k] in s.store && s.store[s.registry[k]].key == k)
    && (forall i | i in s.store :: s.store[i].key in s.registry && s.registry[s.store[i].key] == i)
    && (forall i | i in s.store :: |s.store[i].buckets| == SLOTS)
    && (forall o | o in s.obs && !s.obs[o].stage.Missing? ::
          s.obs[o].stage.sid in s.store && s.store[s.obs[o].stage.sid].key == s.obs[o].key)
  }

  lemma CreateRegistry(s: State, e: Event, s': State)
    requires RegistryOk(s) && Next(s, e, s') && e.Create?
    ensures RegistryOk(s')
  {
    var key := s.obs[e.o].key;
    if key !in s.registry {
      assert s'.registry == s.registry[key := e.sid] && s'.store == s.store[e.sid := NewSeries(key)];
    } else {
      assert s'.registry == s.registry && s'.store == s.store;
    }
    assert s'.obs == s.obs[e.o := s.obs[e.o].(stage := Found(s'.registry[key]))];
  }

  /** Steps that create nothing keep the keys of all series. */
  lemma KeysKept(s: State, e: Event, s': State)
    requires RegistryOk(s) && Next(s, e, s') && !e.Create?
    ensures s'.registry == s.registry && s'.store.Keys == s.store.Keys
    ensures forall i | i in s.store :: s'.store[i].key == s.store[i].key && |s'.store[i].buckets| == SLOTS
  {
  }

  lemma TargetsKept(s: State, e: Event, s': State, o: nat)
    requires RegistryOk(s) && Next(s, e, s') && !e.Create? && o in s'.obs && !s'.obs[o].stage.Missing?
    ensures s'.obs[o].stage.sid in s.store && s.store[s'.obs[o].stage.sid].key == s'.obs[o].key
  {
  }

  lemma StepRegistry(s: State, e: Event, s': State)
    requires RegistryOk(s) && Next(s, e, s')
    ensures RegistryOk(s')
  {
    if e.Create? {
      CreateRegistry(s, e, s');
    } else {
      KeysKept(s, e, s');
      forall o | o in s'.obs && !s'.obs[o].stage.Missing?
        ensures s'.obs[o].stage.sid in s'.store && s'.store[s'.obs[o].stage.sid].key == s'.obs[o].key
      {
        TargetsKept(s, e, s', o);
      }
    }
  }

  // ----- what each series holds -----

  ghost predicate SeriesOk(s: State, sid: nat)
    requires sid in s.store
  {
    var r := s.store[sid];
    && |r.buckets| == SLOTS
    && (forall i | 0 <= i < SLOTS :: r.buckets[i] == |InSlot(s.obs, sid, i)|)
    && Total(r.buckets) == |PastBuckets(s.obs, sid)|
    && r.count == |PastCounts(s.obs, sid)|
    && Distinct(r.order)
    && (forall o :: o in r.order <==> o in PastSums(s.obs, sid))
    && r.sum == Accumulated(s.add, s.obs, r.order)
  }

  /** Recording an observation never changes what was already added up. */
  lemma {:induction false} AccumulatedKept(add: (real, real) -> real, obs: map<nat, Obs>, obs': map<nat, Obs>, order: seq<nat>)
    requires forall o | o in order :: o in obs && o in obs' && obs[o].seconds == obs'[o].seconds
    ensures Accumulated(add, obs, order) == Accumulated(add, obs', order)
  {
    if order != [] { AccumulatedKept(add, obs, obs', Front(order)); }
  }

  /** How the counts of series sid move when observation o becomes ob. */
  lemma Recount(obs: map<nat, Obs>, o: nat, ob: Obs, sid: nat, i: nat)
    requires o in obs ==> obs[o].seconds == ob.seconds
    ensures var was := o in obs;
            && |PastBuckets(obs[o := ob], sid)| == |PastBuckets(obs, sid)|
               - (if was && obs[o].PastBucket(sid) then 1 else 0) + (if ob.PastBucket(sid) then 1 else 0)
            && |PastCounts(obs[o := ob], sid)| == |PastCounts(obs, sid)|
               - (if was && obs[o].PastCount(sid) then 1 else 0) + (if ob.PastCount(sid) then 1 else 0)
            && |InSlot(obs[o := ob], sid, i)| == |InSlot(obs, sid, i)|
               - (if was && obs[o].PastBucket(sid) && Slot(ob.seconds) == i then 1 else 0)
               + (if ob.PastBucket(sid) && Slot(ob.seconds) == i then 1 else 0)
  {
    CardFlip(PastBuckets(obs, sid), PastBuckets(obs[o := ob], sid), o);
    CardFlip(PastCounts(obs, sid), PastCounts(obs[o := ob], sid), o);
    CardFlip(InSlot(obs, sid, i), InSlot(obs[o := ob], sid, i), o);
  }

  /** What a step of observation o does to the series sid, read off the step alone. */
  ghost predicate Effect(s: State, s': State, o: nat, ob: Obs, sid: nat) {
    && s'.obs == s.obs[o := ob] && s'.add == s.add
    && sid in s.store && sid in s'.store
    && (o in s.obs ==> s.obs[o].seconds == ob.seconds)
    && var (r, r') := (s.store[sid], s'.store[sid]);
       var had, has := (o in s.obs && s.obs[o].PastBucket(sid)), ob.PastBucket(sid);
       && |r.buckets| == SLOTS
       && (if !had && has then Slot(ob.seconds) < SLOTS && r'.buckets == Bump(r.buckets, Slot(ob.seconds))
           else had == has && r'.buckets == r.buckets)
       && (if !(o in s.obs && s.obs[o].PastCount(sid)) && ob.PastCount(sid) then r'.count == r.count + 1
           else (o in s.obs && s.obs[o].PastCount(sid)) == ob.PastCount(sid) && r'.count == r.count)
       && (if !(o in s.obs && s.obs[o].PastSum(sid)) && ob.PastSum(sid)
           then r'.order == r.order + [o] && r'.sum == s.add(r.sum, ob.seconds)
           else (o in s.obs && s.obs[o].PastSum(sid)) == ob.PastSum(sid) && r'.order == r.order && r'.sum == r.sum)
  }

  lemma LookupEffect(s: State, e: Event, s': State, sid: nat)
    requires RegistryOk(s) && Next(s, e, s') && (e.Observe? || e.Create?) && sid in s.store
    ensures Effect(s, s', e.o, s'.obs[e.o], sid)
  {
  }

  lemma CountEffect(s: State, e: Event, s': State, sid: nat)
    requires RegistryOk(s) && Next(s, e, s') && (e.AddBucket? || e.AddCount?) && sid in s.store
    ensures Effect(s, s', e.o, s'.obs[e.o], sid)
  {
    if e.AddBucket? { SlotInRange(s.obs[e.o].seconds); }
  }

  lemma SumEffect(s: State, e: Event, s': State, sid: nat)
    requires RegistryOk(s) && Next(s, e, s') && (e.Load? || e.Cas?) && sid in s.store
    ensures Effect(s, s', e.o, s'.obs[e.o], sid)
  {
  }

  lemma StepEffect(s: State, e: Event, s': State, sid: nat)
    requires RegistryOk(s) && Next(s, e, s') && !e.ReadSum? && !e.ReadCount? && !e.ReadBucket? && sid in s.store
    ensures Effect(s, s', e.o, s'.obs[e.o], sid)
  {
    if e.Observe? || e.Create? {
      LookupEffect(s, e, s', sid);
    } else if e.Load? || e.Cas? {
      SumEffect(s, e, s', sid);
    } else {
      CountEffect(s, e, s', sid);
    }
  }

  lemma EffectCounts(s: State, s': State, o: nat, ob: Obs, sid: nat)
    requires SeriesAt(s, sid) && Effect(s, s', o, ob, sid)
    ensures var r' := s'.store[sid];
            && |r'.buckets| == SLOTS
            && (forall i | 0 <= i < SLOTS :: r'.buckets[i] == |InSlot(s'.obs, sid, i)|)
            && Total(r'.buckets) == |PastBuckets(s'.obs, sid)|
            && r'.count == |PastCounts(s'.obs, sid)|
  {
    var r, r' := s.store[sid], s'.store[sid];
    Recount(s.obs, o, ob, sid, 0);
    forall i | 0 <= i < SLOTS ensures |r'.buckets| == SLOTS && r'.buckets[i] == |InSlot(s'.obs, sid, i)| {
      Recount(s.obs, o, ob, sid, i);
    }
    if r'.buckets != r.buckets { TotalBump(r.buckets, Slot(ob.seconds)); }
  }

  lemma EffectOrder(s: State, s': State, o: nat, ob: Obs, sid: nat)
    requires SeriesAt(s, sid) && Effect(s, s', o, ob, sid)
    ensures Distinct(s'.store[sid].order)
    ensures forall p :: p in s'.store[sid].order <==> p in PastSums(s'.obs, sid)
  {
    var r, r' := s.store[sid], s'.store[sid];
    assert forall p :: p in r.order <==> p in PastSums(s.obs, sid);
    assert forall p :: p in PastSums(s'.obs, sid) <==> if p == o then ob.PastSum(sid) else p in PastSums(s.obs, sid);
    if r'.order != r.order { assert o !in r.order; }
  }

  lemma EffectSum(s: State, s': State, o: nat, ob: Obs, sid: nat)
    requires SeriesAt(s, sid) && Effect(s, s', o, ob, sid)
    requires forall p | p in s'.store[sid].order :: p in s'.obs
    ensures s'.store[sid].sum == Accumulated(s'.add, s'.obs, s'.store[sid].order)
  {
    var r, r' := s.store[sid], s'.store[sid];
    forall p | p in r.order ensures p in s.obs && p in s'.obs && s.obs[p].seconds == s'.obs[p].seconds {
      assert p in PastSums(s.obs, sid);
    }
    AccumulatedKept(s.add, s.obs, s'.obs, r.order);
    if r'.order != r.order { assert Front(r'.order) == r.order && Last(r'.order) == o; }
  }

  ghost predicate SeriesAt(s: State, sid: nat) { sid in s.store && SeriesOk(s, sid) }

  /** A freshly created series has no observations yet. */
  lemma CreatedSeries(s: State, e: Event, s': State, sid: nat)
    requires RegistryOk(s) && Next(s, e, s') && sid !in s.store && sid in s'.store
    ensures SeriesOk(s', sid)
  {
    assert e.Create? && s'.store[sid] == NewSeries(s.obs[e.o].key);
    assert forall o | o in s'.obs :: !s'.obs[o].PastBucket(sid);
    assert PastBuckets(s'.obs, sid) == {} && PastCounts(s'.obs, sid) == {} && PastSums(s'.obs, sid) == {};
    forall i | 0 <= i < SLOTS ensures s'.store[sid].buckets[i] == |InSlot(s'.obs, sid, i)| {
      assert InSlot(s'.obs, sid, i) == {};
    }
    ZeroTotal(SLOTS);
  }

  lemma {:induction false} ZeroTotal(n: nat)
    ensures Total(seq(n, _ => 0)) == 0
  {
    if n > 0 {
      ZeroTotal(n - 1);
      assert Front(seq(n, _ => 0)) == seq(n - 1, _ => 0);
    }
  }

  lemma StepSeries(s: State, e: Event, s': State, sid: nat)
    requires RegistryOk(s) && Next(s, e, s') && sid in s'.store
    requires sid in s.store ==> SeriesOk(s, sid)
    ensures SeriesOk(s', sid)
  {
    if sid !in s.store {
      CreatedSeries(s, e, s', sid);
    } else if !e.ReadSum? && !e.ReadCount? && !e.ReadBucket? {
      StepEffect(s, e, s', sid);
      EffectCounts(s, s', e.o, s'.obs[e.o], sid);
      EffectOrder(s, s', e.o, s'.obs[e.o], sid);
      assert forall p | p in s'.store[sid].order :: p in PastSums(s'.obs, sid);
      EffectSum(s, s', e.o, s'.obs[e.o], sid);
    }
  }

  // ----- what a scrape sees -----

  ghost predicate Nondecreasing(c: seq<nat>) { forall i, j | 0 <= i < j < |c| :: c[i] <= c[j] }

  function Running(c: seq<nat>): nat { if c == [] then 0 else Last(c) }

  /** A scrape that has read the count, against the current buckets `b` of its series and the observations that
      have reached the buckets and finished. */
  ghost predicate ReadingOk(sc: Scrape, b: seq<nat>, reached: set<nat>, done: set<nat>) {
    var n := |sc.cumulative|;
    && sc.count.Some? && sc.count.value == |sc.counted| && sc.counted <= done <= reached
    && |b| == SLOTS && Below(sc.base, b) && sc.count.value <= Total(sc.base)
    && n <= SLOTS && Nondecreasing(sc.cumulative)
    && Total(sc.base[..n]) <= Running(sc.cumulative) <= Total(b[..n])
    && (n > 0 ==> sc.counted <= sc.seen <= reached && Running(sc.cumulative) <= |sc.seen|)
  }

  ghost predicate ScrapeOk(s: State, sc: Scrape) {
    && sc.sid in s.store
    && sc.summed <= PastSums(s.obs, sc.sid)
    && if sc.count.None? then sc.cumulative == []
       else ReadingOk(sc, s.store[sc.sid].buckets, PastBuckets(s.obs, sc.sid), PastCounts(s.obs, sc.sid))
  }

  /** Everything a scrape remembers only grows. */
  ghost predicate Grows(s: State, s': State, sid: nat) {
    && sid in s.store && sid in s'.store
    && Below(s.store[sid].buckets, s'.store[sid].buckets)
    && PastBuckets(s.obs, sid) <= PastBuckets(s'.obs, sid)
    && PastCounts(s.obs, sid) <= PastCounts(s'.obs, sid)
    && PastSums(s.obs, sid) <= PastSums(s'.obs, sid)
  }

  lemma EffectGrows(s: State, s': State, o: nat, ob: Obs, sid: nat)
    requires Effect(s, s', o, ob, sid)
    ensures Grows(s, s', sid)
  {
  }

  lemma ReadingKept(sc: Scrape, b: seq<nat>, reached: set<nat>, done: set<nat>, b': seq<nat>, reached': set<nat>, done': set<nat>)
    requires ReadingOk(sc, b, reached, done) && Below(b, b') && reached <= reached' && done <= done' <= reached'
    ensures ReadingOk(sc, b', reached', done')
  {
    TotalMono(b[..|sc.cumulative|], b'[..|sc.cumulative|]);
  }

  lemma ScrapeKept(s: State, s': State, sc: Scrape)
    requires ScrapeOk(s, sc) && Grows(s, s', sc.sid)
    ensures ScrapeOk(s', sc)
  {
    var i := sc.sid;
    if sc.count.Some? {
      ReadingKept(sc, s.store[i].buckets, PastBuckets(s.obs, i), PastCounts(s.obs, i),
                  s'.store[i].buckets, PastBuckets(s'.obs, i), PastCounts(s'.obs, i));
    }
  }

  lemma CountRead(s: State, x: nat)
    requires Enabled(s, ReadCount(x)) && ScrapeOk(s, s.scrapes[x]) && SeriesAt(s, s.scrapes[x].sid)
    ensures ScrapeOk(s, ApplyScrape(s, ReadCount(x)))
  {
    var sid := s.scrapes[x].sid;
    assert PastCounts(s.obs, sid) <= PastBuckets(s.obs, sid);
    CardSubset(PastCounts(s.obs, sid), PastBuckets(s.obs, sid));
  }

  /** Reading one more bucket keeps the running total between the old buckets and the current ones. */
  lemma CumulateMore(c: seq<nat>, base: seq<nat>, b: seq<nat>)
    requires Below(base, b) && |c| < |b| && Nondecreasing(c)
    requires Total(base[..|c|]) <= Running(c) <= Total(b[..|c|])
    ensures var n, d := |c| + 1, c + [Running(c) + b[|c|]];
            && Nondecreasing(d)
            && Total(base[..n]) <= Running(d) <= Total(b[..n]) <= Total(b)
  {
    TotalNext(b, |c|);
    TotalNext(base, |c|);
    TotalPrefix(b, |c| + 1);
  }

  lemma TotalNext(b: seq<nat>, n: nat)
    requires n < |b|
    ensures Total(b[..n + 1]) == Total(b[..n]) + b[n]
  {
    assert Front(b[..n + 1]) == b[..n];
  }

  lemma ReadMore(sc: Scrape, b: seq<nat>, reached: set<nat>, done: set<nat>)
    requires ReadingOk(sc, b, reached, done) && |sc.cumulative| < |b| && Total(b) == |reached|
    ensures var c := sc.cumulative;
            ReadingOk(sc.(cumulative := c + [Running(c) + b[|c|]], seen := reached), b, reached, done)
  {
    CumulateMore(sc.cumulative, sc.base, b);
  }

  lemma BucketRead(s: State, x: nat)
    requires Enabled(s, ReadBucket(x)) && ScrapeOk(s, s.scrapes[x])
    requires Total(s.store[s.scrapes[x].sid].buckets) == |PastBuckets(s.obs, s.scrapes[x].sid)|
    ensures ScrapeOk(s, ApplyScrape(s, ReadBucket(x)))
  {
    var sc := s.scrapes[x];
    ReadMore(sc, s.store[sc.sid].buckets, PastBuckets(s.obs, sc.sid), PastCounts(s.obs, sc.sid));
  }

  lemma StepScrapes(s: State, e: Event, s': State, x: nat)
    requires RegistryOk(s) && Next(s, e, s') && x in s'.scrapes
    requires forall i | i in s.store :: SeriesOk(s, i)
    requires x in s.scrapes ==> ScrapeOk(s, s.scrapes[x])
    ensures ScrapeOk(s', s'.scrapes[x])
  {
    if (e.ReadSum? || e.ReadCount? || e.ReadBucket?) && e.x == x {
      if e.ReadCount? {
        assert SeriesOk(s, s.scrapes[x].sid);
        CountRead(s, x);
      } else if e.ReadBucket? {
        assert SeriesOk(s, s.scrapes[x].sid);
        BucketRead(s, x);
      }
    } else if !(e.ReadSum? || e.ReadCount? || e.ReadBucket?) {
      var sid := s.scrapes[x].sid;
      StepEffect(s, e, s', sid);
      EffectGrows(s, s', e.o, s'.obs[e.o], sid);
      ScrapeKept(s, s', s.scrapes[x]);
    }
  }

  // ----- all runs -----

  ghost predicate Inv(s: State) {
    && RegistryOk(s)
    && (forall i | i in s.store :: SeriesOk(s, i))
    && (forall x | x in s.scrapes :: ScrapeOk(s, s.scrapes[x]))
  }

  lemma StepInv(s: State, e: Event, s': State)
    requires Inv(s) && Next(s, e, s')
    ensures Inv(s')
  {
    StepRegistry(s, e, s');
    forall i | i in s'.store ensures SeriesOk(s', i) { StepSeries(s, e, s', i); }
    forall x | x in s'.scrapes ensures ScrapeOk(s', s'.scrapes[x]) { StepScrapes(s, e, s', x); }
  }

  lemma RunInv(ss: seq<State>, es: seq<Event>, k: nat)
    requires Run(Init, Next, ss, es) && k < |ss|
    ensures Inv(ss[k])
  {
    forall s, e, s' | Inv(s) && Next(s, e, s') ensures Inv(s') { StepInv(s, e, s'); }
    Invariance(Init, Next, Inv, ss, es, k);
  }

  /** No recording is ever stuck: each has a step of its own to take, whoever else is recording. `unused` names the series
      it would create. */
  lemma ObserverCanStep(ss: seq<State>, es: seq<Event>, k: nat, o: nat, unused: nat) returns (e: Event)
    requires Run(Init, Next, ss, es) && k < |ss| && o in ss[k].obs && !ss[k].obs[o].stage.Counted?
    requires unused !in ss[k].store
    ensures (e.Create? || e.AddBucket? || e.Load? || e.Cas? || e.AddCount?) && e.o == o && Enabled(ss[k], e)
  {
    RunInv(ss, es, k);
    match ss[k].obs[o].stage
    case Missing => e := Create(o, unused);
    case Found(_) => e := AddBucket(o);
    case Bucketed(_) => e := Load(o);
    case Loaded(_, _) => e := Cas(o);
    case Summed(_) => e := AddCount(o);
  }

  /** A recording finds the series registered for its key, if there is one. */
  lemma LookupOutcome(ss: seq<State>, es: seq<Event>, k: nat, o: nat, key: Key, seconds: real)
    requires Run(Init, Next, ss, es) && k < |es| && es[k] == Observe(o, key, seconds)
    ensures o in ss[k + 1].obs
    ensures ss[k + 1].obs[o] == Obs(key, seconds, if key in ss[k].registry then Found(ss[k].registry[key]) else Missing)
    ensures ss[k + 1].registry == ss[k].registry && ss[k + 1].store == ss[k].store
  {
    assert Next(ss[k], es[k], ss[k + 1]);
  }

  /** Racing creation: a recording that found no series uses the one somebody else registered meanwhile, and registers an
      empty one only if there is still none. */
  lemma CreateOutcome(ss: seq<State>, es: seq<Event>, k: nat, o: nat, sid: nat)
    requires Run(Init, Next, ss, es) && k < |es| && es[k] == Create(o, sid)
    ensures o in ss[k].obs && o in ss[k + 1].obs
    ensures var s, s', key := ss[k], ss[k + 1], ss[k].obs[o].key;
            && key in s'.registry && s'.obs[o].stage == Found(s'.registry[key])
            && if key in s.registry then s'.registry == s.registry && s'.store == s.store
               else s'.registry == s.registry[key := sid] && s'.store == s.store[sid := NewSeries(key)]
  {
    assert Next(ss[k], es[k], ss[k + 1]);
  }

  /** The compare-and-swap adds the observation to the sum if and only if the sum is still the one loaded; otherwise the
      recording loads it again. */
  lemma CasOutcome(ss: seq<State>, es: seq<Event>, k: nat, o: nat)
    requires Run(Init, Next, ss, es) && k < |es| && es[k] == Cas(o)
    ensures o in ss[k].obs && o in ss[k + 1].obs && ss[k].obs[o].stage.Loaded? && ss[k].obs[o].stage.sid in ss[k].store
    ensures var s, s', x := ss[k], ss[k + 1], ss[k].obs[o];
            var sid := x.stage.sid;
            var d := s.store[sid];
            if d.sum == x.stage.old_ then
              && s'.obs[o].stage == Summed(sid)
              && s'.store == s.store[sid := d.(sum := s.add(d.sum, x.seconds), order := d.order + [o])]
            else s'.obs[o].stage == Bucketed(sid) && s'.store == s.store
  {
    assert Next(ss[k], es[k], ss[k + 1]);
  }

  /** A scrape against any concurrent observers: the cumulative buckets never decrease, +Inf is at least the
      count, and exceeds it by at most the number of observations that reached the buckets before the last
      read and had not finished at the read of the count. */
  lemma ScrapeConsistency(ss: seq<State>, es: seq<Event>, k: nat, x: nat)
    requires Run(Init, Next, ss, es) && k < |ss| && x in ss[k].scrapes && |ss[k].scrapes[x].cumulative| == SLOTS
    ensures var sc := ss[k].scrapes[x];
            && Nondecreasing(sc.cumulative)
            && sc.count.Some?
            && sc.count.value <= Last(sc.cumulative) <= sc.count.value + |sc.seen - sc.counted|
  {
    RunInv(ss, es, k);
    var sc := ss[k].scrapes[x];
    assert ScrapeOk(ss[k], sc);
    assert sc.base[..SLOTS] == sc.base;
    CardSubset(sc.counted, sc.seen);
  }

  // ----- the count against the sum -----

  /** The step is the increment of the count of series sid. */
  predicate Counts(s: State, e: Event, sid: nat) {
    e.AddCount? && e.o in s.obs && s.obs[e.o].stage.Summed? && s.obs[e.o].stage.sid == sid
  }

  /** The increments of the count of series sid among the steps from a up to b. */
  ghost function CountSteps(ss: seq<State>, es: seq<Event>, sid: nat, a: nat, b: nat): set<nat>
    requires |ss| == |es| + 1
  {
    set i: nat | i < |es| && a <= i < b && Counts(ss[i], es[i], sid)
  }

  lemma CountStep(s: State, e: Event, s': State, sid: nat)
    requires RegistryOk(s) && Next(s, e, s') && sid in s.store
    ensures sid in s'.store
    ensures s'.store[sid].count == s.store[sid].count + (if Counts(s, e, sid) then 1 else 0)
  {
  }

  lemma CountStepsMore(ss: seq<State>, es: seq<Event>, sid: nat, a: nat, b: nat)
    requires |ss| == |es| + 1 && a <= b < |es|
    ensures |CountSteps(ss, es, sid, a, b + 1)|
            == |CountSteps(ss, es, sid, a, b)| + (if Counts(ss[b], es[b], sid) then 1 else 0)
  {
    CardFlip(CountSteps(ss, es, sid, a, b), CountSteps(ss, es, sid, a, b + 1), b);
  }

  lemma CountStepAt(ss: seq<State>, es: seq<Event>, sid: nat, b: nat)
    requires Run(Init, Next, ss, es) && b < |es| && sid in ss[b].store
    ensures sid in ss[b + 1].store
    ensures ss[b + 1].store[sid].count == ss[b].store[sid].count + (if Counts(ss[b], es[b], sid) then 1 else 0)
  {
    RunInv(ss, es, b);
    CountStep(ss[b], es[b], ss[b + 1], sid);
  }

  /** The count of a series moves by exactly the increments made. */
  lemma {:induction false} CountMoves(ss: seq<State>, es: seq<Event>, sid: nat, a: nat, b: nat)
    requires Run(Init, Next, ss, es) && a <= b < |ss| && sid in ss[a].store
    ensures sid in ss[b].store
    ensures ss[b].store[sid].count == ss[a].store[sid].count + |CountSteps(ss, es, sid, a, b)|
    decreases b
  {
    if a == b {
      assert CountSteps(ss, es, sid, a, b) == {};
    } else {
      CountMoves(ss, es, sid, a, b - 1);
      CountStepAt(ss, es, sid, b - 1);
      CountStepsMore(ss, es, sid, a, b - 1);
    }
  }

  /** The sum a scrape has read, and the series it reads, stay what they were. */
  lemma {:induction false} SumReadKept(ss: seq<State>, es: seq<Event>, x: nat, j: nat, k: nat)
    requires Run(Init, Next, ss, es) && j <= k < |ss| && x in ss[j].scrapes
    ensures x in ss[k].scrapes
    ensures ss[k].scrapes[x].sid == ss[j].scrapes[x].sid && ss[k].scrapes[x].sum == ss[j].scrapes[x].sum
    decreases k
  {
    if j < k {
      SumReadKept(ss, es, x, j, k - 1);
      assert Next(ss[k - 1], es[k - 1], ss[k - 1 + 1]);
    }
  }

  lemma SumReadAt(ss: seq<State>, es: seq<Event>, x: nat, sid: nat, a: nat)
    requires Run(Init, Next, ss, es) && a < |es| && es[a] == ReadSum(x, sid)
    ensures sid in ss[a].store && ss[a + 1].store == ss[a].store && x in ss[a + 1].scrapes
    ensures ss[a + 1].scrapes[x].sid == sid && ss[a + 1].scrapes[x].sum == ss[a].store[sid].sum
  {
    assert Next(ss[a], es[a], ss[a + 1]);
  }

  lemma CountReadAt(ss: seq<State>, es: seq<Event>, x: nat, b: nat)
    requires Run(Init, Next, ss, es) && b < |es| && es[b] == ReadCount(x)
    ensures x in ss[b].scrapes && x in ss[b + 1].scrapes && ss[b].scrapes[x].sid in ss[b].store
    ensures ss[b + 1].scrapes[x].count == Some(ss[b].store[ss[b].scrapes[x].sid].count)
    ensures ss[b + 1].scrapes[x].sum == ss[b].scrapes[x].sum
  {
    assert Next(ss[b], es[b], ss[b + 1]);
  }

  /** What a scrape reports when it reads the sum at step a and the count at step b. */
  lemma ReadsApart(ss: seq<State>, es: seq<Event>, x: nat, sid: nat, a: nat, b: nat)
    requires Run(Init, Next, ss, es) && a < b < |es| && es[a] == ReadSum(x, sid) && es[b] == ReadCount(x)
    ensures x in ss[b + 1].scrapes && sid in ss[a].store && ss[b + 1].scrapes[x].sum == ss[a].store[sid].sum
    ensures ss[b + 1].scrapes[x].count == Some(ss[a].store[sid].count + |CountSteps(ss, es, sid, a + 1, b)|)
  {
    SumReadAt(ss, es, x, sid, a);
    SumReadKept(ss, es, x, a + 1, b);
    CountMoves(ss, es, sid, a + 1, b);
    CountReadAt(ss, es, x, b);
  }

  /** Observations of series sid that are in its sum and not yet in its count. */
  ghost function Uncounted(s: State, sid: nat): set<nat> { PastSums(s.obs, sid) - PastCounts(s.obs, sid) }

  /** At every instant the sum is ahead of the count by the observations that are between the two. */
  lemma SumLeadsCount(ss: seq<State>, es: seq<Event>, k: nat, sid: nat)
    requires Run(Init, Next, ss, es) && k < |ss| && sid in ss[k].store
    ensures |ss[k].store[sid].order| == ss[k].store[sid].count + |Uncounted(ss[k], sid)|
    ensures forall o | o in ss[k].store[sid].order :: o in ss[k].obs
    ensures ss[k].store[sid].sum == Accumulated(ss[k].add, ss[k].obs, ss[k].store[sid].order)
  {
    RunInv(ss, es, k);
    var s := ss[k];
    assert SeriesOk(s, sid);
    var order := s.store[sid].order;
    DistinctSize(order, PastSums(s.obs, sid));
    CardSubset(PastCounts(s.obs, sid), PastSums(s.obs, sid));
    forall o | o in order ensures o in s.obs { assert o in PastSums(s.obs, sid); }
  }

  /** A scrape that reads the sum at step a and the count at step b reports a sum of the n observations added by a.
      The count is ahead of them if and only if more observations were counted between the two reads than were in
      the sum and uncounted at the first; and so not if none was counted between. */
  lemma CountAheadOfSum(ss: seq<State>, es: seq<Event>, x: nat, sid: nat, a: nat, b: nat)
    requires Run(Init, Next, ss, es) && a < b < |es| && es[a] == ReadSum(x, sid) && es[b] == ReadCount(x)
    ensures x in ss[b + 1].scrapes && sid in ss[a].store && ss[b + 1].scrapes[x].count.Some?
    ensures var s, sc, order := ss[a], ss[b + 1].scrapes[x], ss[a].store[sid].order;
            && (forall o | o in order :: o in s.obs)
            && sc.sum == Accumulated(s.add, s.obs, order)
            && (sc.count.value > |order| <==> |CountSteps(ss, es, sid, a + 1, b)| > |Uncounted(s, sid)|)
            && (CountSteps(ss, es, sid, a + 1, b) == {} ==> sc.count.value <= |order|)
  {
    ReadsApart(ss, es, x, sid, a, b);
    SumLeadsCount(ss, es, a, sid);
  }

  /** Had the count been read first, the comment would be true: in every run, a count read at one instant is never
      ahead of the sum read at the same instant or a later one. */
  lemma CountFirstNeverAhead(ss: seq<State>, es: seq<Event>, sid: nat, a: nat, b: nat)
    requires Run(Init, Next, ss, es) && a <= b < |ss| && sid in ss[a].store
    ensures sid in ss[b].store && ss[a].store[sid].count <= |ss[b].store[sid].order|
    ensures forall o | o in ss[b].store[sid].order :: o in ss[b].obs
    ensures ss[b].store[sid].sum == Accumulated(ss[b].add, ss[b].obs, ss[b].store[sid].order)
  {
    CountMoves(ss, es, sid, a, b);
    SumLeadsCount(ss, es, b, sid);
  }

  ghost predicate Quiescent(s: State) { forall o | o in s.obs :: s.obs[o].stage.Counted? }

  /** The observations made under a key. */
  ghost function Under(s: State, key: Key): set<nat> { set o | o in s.obs && s.obs[o].key == key }

  lemma QuietSeries(s: State, key: Key)
    requires RegistryOk(s) && Quiescent(s) && key in s.registry
    ensures var sid := s.registry[key];
            Under(s, key) == PastBuckets(s.obs, sid) == PastCounts(s.obs, sid) == PastSums(s.obs, sid)
  {
    var sid := s.registry[key];
    forall o | o in s.obs ensures s.obs[o].key == key <==> s.obs[o].PastCount(sid) {
      assert s.obs[o].stage.Counted?;
    }
    forall o | o in s.obs ensures s.obs[o].PastBucket(sid) == s.obs[o].PastSum(sid) == s.obs[o].PastCount(sid) {
      assert s.obs[o].stage.Counted?;
    }
  }

  /** Nothing is lost under racing creation: when no observation is under way, the series of a key holds
      every observation of that key, once in its buckets and once in its count, and its sum is their sum in
      some order. */
  lemma NothingLost(ss: seq<State>, es: seq<Event>, k: nat, key: Key)
    requires Run(Init, Next, ss, es) && k < |ss| && Quiescent(ss[k])
    ensures Under(ss[k], key) != {} ==> key in ss[k].registry
    ensures key in ss[k].registry ==>
              && ss[k].registry[key] in ss[k].store
              && var r := ss[k].store[ss[k].registry[key]];
                 && r.key == key
                 && Total(r.buckets) == r.count == |Under(ss[k], key)|
                 && Distinct(r.order) && (forall o :: o in r.order <==> o in Under(ss[k], key))
                 && r.sum == Accumulated(ss[k].add, ss[k].obs, r.order)
  {
    RunInv(ss, es, k);
    var s := ss[k];
    if Under(s, key) != {} {
      var o :| o in Under(s, key);
      assert s.obs[o].stage.Counted?;
    }
    if key in s.registry {
      assert SeriesOk(s, s.registry[key]);
      QuietSeries(s, key);
    }
  }

  /** The observations in the buckets of series sid that are at most x seconds. */
  ghost function AtMost(obs: map<nat, Obs>, sid: nat, x: real): set<nat> {
    set o | o in obs && obs[o].PastBucket(sid) && obs[o].seconds <= x
  }

  lemma AtMostSplit(obs: map<nat, Obs>, sid: nat, i: nat)
    requires i < |BOUNDS|
    ensures i == 0 ==> AtMost(obs, sid, BOUNDS[0]) == InSlot(obs, sid, 0)
    ensures i > 0 ==> && AtMost(obs, sid, BOUNDS[i]) == AtMost(obs, sid, BOUNDS[i - 1]) + InSlot(obs, sid, i)
                      && AtMost(obs, sid, BOUNDS[i - 1]) !! InSlot(obs, sid, i)
  {
    forall o | o in obs ensures obs[o].seconds <= BOUNDS[i] <==> Slot(obs[o].seconds) <= i {
      SlotMeaning(obs[o].seconds, i);
    }
    if i > 0 {
      forall o | o in obs ensures obs[o].seconds <= BOUNDS[i - 1] <==> Slot(obs[o].seconds) <= i - 1 {
        SlotMeaning(obs[o].seconds, i - 1);
      }
    }
  }

  /** Cumulating the buckets of a series gives, for each bound, the number of its observations at or below it. */
  lemma {:induction false} CumulativeMeaning(s: State, sid: nat, i: nat)
    requires SeriesAt(s, sid) && i < |BOUNDS|
    ensures Total(s.store[sid].buckets[..i + 1]) == |AtMost(s.obs, sid, BOUNDS[i])|
  {
    var b := s.store[sid].buckets;
    AtMostSplit(s.obs, sid, i);
    TotalNext(b, i);
    assert b[i] == |InSlot(s.obs, sid, i)|;
    if i > 0 { CumulativeMeaning(s, sid, i - 1); } else { assert b[..0] == []; }
  }

  /** The same, in every run and at every instant, for the buckets as they stand. */
  lemma BucketsCountObservations(ss: seq<State>, es: seq<Event>, k: nat, sid: nat, i: nat)
    requires Run(Init, Next, ss, es) && k < |ss| && sid in ss[k].store && i < |BOUNDS|
    ensures |ss[k].store[sid].buckets| == SLOTS
    ensures Total(ss[k].store[sid].buckets[..i + 1]) == |AtMost(ss[k].obs, sid, BOUNDS[i])|
  {
    RunInv(ss, es, k);
    assert SeriesOk(ss[k], sid);
    CumulativeMeaning(ss[k], sid, i);
  }

  /** The comment on series.observe says that a scrape never sees a count ahead of the sum. Since the sum is
      read first, it can: here one observation adds itself to both between the two reads, and the scrape
      reports a count of one beside the sum of nothing. */
  lemma CountCanLeadSum(add: (real, real) -> real, key: Key, seconds: real) returns (ss: seq<State>, es: seq<Event>)
    ensures Run(Init, Next, ss, es) && 0 in Last(ss).scrapes
    ensures var sc := Last(ss).scrapes[0]; sc.count == Some(1) && sc.summed == {} && sc.sum == 0.0
  {
    ss, es := OneBucketed(add, key, seconds);
    ss, es := SumReadFirst(ss, es, seconds);
    ss, es := SumAndCountAdded(ss, es, seconds);
    ss, es := Then(ss, es, ReadCount(0), Apply(Last(ss), ReadCount(0)));
  }

  /** The run so far ends with one observation of one series, in the given stage, and perhaps a scrape. */
  ghost predicate Alone(ss: seq<State>, es: seq<Event>, seconds: real, stage: Stage, count: nat, scraping: bool) {
    && Run(Init, Next, ss, es)
    && var s := Last(ss);
       && s.obs.Keys == {0} && s.obs[0].seconds == seconds && s.obs[0].stage == stage
       && s.store.Keys == {0} && |s.store[0].buckets| == SLOTS && s.store[0].count == count
       && (count == 0 && !stage.Summed? ==> s.store[0].sum == 0.0)
       && if scraping then s.scrapes == map[0 := Scrape(0, 0.0, None, [], {}, {}, [], {})] else s.scrapes == map[]
  }

  lemma OneBucketed(add: (real, real) -> real, key: Key, seconds: real) returns (ss: seq<State>, es: seq<Event>)
    ensures Alone(ss, es, seconds, Bucketed(0), 0, false)
  {
    var ob, r := Obs(key, seconds, Missing), NewSeries(key);
    SlotInRange(seconds);
    var s1 := State(add, map[], map[], map[0 := ob], map[]);
    var s2 := State(add, map[key := 0], map[0 := r], map[0 := ob.(stage := Found(0))], map[]);
    ss, es := [State(add, map[], map[], map[], map[])], [];
    ss, es := Then(ss, es, Observe(0, key, seconds), s1);
    ss, es := Then(ss, es, Create(0, 0), s2);
    ss, es := Then(ss, es, AddBucket(0), Apply(s2, AddBucket(0)));
  }

  lemma SumReadFirst(ss: seq<State>, es: seq<Event>, seconds: real) returns (ss': seq<State>, es': seq<Event>)
    requires Alone(ss, es, seconds, Bucketed(0), 0, false)
    ensures Alone(ss', es', seconds, Loaded(0, 0.0), 0, true)
  {
    var s := Last(ss);
    assert PastSums(s.obs, 0) == {};
    var t := Apply(s, ReadSum(0, 0));
    ss', es' := Then(ss, es, ReadSum(0, 0), t);
    ss', es' := Then(ss', es', Load(0), Apply(t, Load(0)));
  }

  lemma SumAndCountAdded(ss: seq<State>, es: seq<Event>, seconds: real) returns (ss': seq<State>, es': seq<Event>)
    requires Alone(ss, es, seconds, Loaded(0, 0.0), 0, true)
    ensures Alone(ss', es', seconds, Counted(0), 1, true)
  {
    var t := Apply(Last(ss), Cas(0));
    ss', es' := Then(ss, es, Cas(0), t);
    ss', es' := Then(ss', es', AddCount(0), Apply(t, AddCount(0)));
  }

  lemma Then(ss: seq<State>, es: seq<Event>, e: Event, s': State) returns (ss': seq<State>, es': seq<Event>)
    requires Run(Init, Next, ss, es) && Next(Last(ss), e, s')
    ensures Run(Init, Next, ss', es') && Last(ss') == s'
  {
    Extend(Init, Next, ss, es, e, s');
    ss', es' := ss + [s'], es + [e];
  }
}
