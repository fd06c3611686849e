/** pkg/metrics: lock-free recording into series that racing observers may create, and scrapes that read
    the atomics of a series one at a time. Counters are unbounded; `add` stands for the machine's floating
    addition, of which nothing is assumed. */
module Metrics {
  import opened Collections

  /** defBuckets: the upper bounds, in seconds, of all slots but the overflow one. */
  const BOUNDS: seq<real> := [0.005, 0.01, 0.025, 0.05, 0.1, 0.25, 0.5, 1.0, 2.5, 5.0, 10.0]
  const SLOTS: nat := 12

  // ----- the slot of an observation -----

  function SlotFrom(x: real, i: nat): (n: nat)
    requires i <= |BOUNDS|
    ensures i <= n <= |BOUNDS|
    decreases |BOUNDS| - i
  {
    if i == |BOUNDS| || x <= BOUNDS[i] then i else SlotFrom(x, i + 1)
  }

  function Slot(x: real): nat { SlotFrom(x, 0) }

  lemma BoundsIncrease(i: nat, j: nat)
    requires i < j < |BOUNDS|
    ensures BOUNDS[i] < BOUNDS[j]
  {
  }

  lemma {:induction false} SlotFromMeaning(x: real, from: nat, i: nat)
    requires from <= i < |BOUNDS|
    ensures SlotFrom(x, from) <= i <==> x <= BOUNDS[i]
    decreases |BOUNDS| - from
  {
    if from < i {
      BoundsIncrease(from, i);
      SlotFromMeaning(x, from + 1, i);
    }
  }

  /** The bounds are inclusive: an observation falls into slot i or below exactly when it is at most the
      i-th bound. */
  lemma SlotMeaning(x: real, i: nat)
    requires i < |BOUNDS|
    ensures Slot(x) <= i <==> x <= BOUNDS[i]
    ensures Slot(x) <= |BOUNDS|
  {
    SlotFromMeaning(x, 0, i);
  }

  method BucketIndex(seconds: real) returns (n: nat)
    ensures n == Slot(seconds)
    ensures n < |BOUNDS| ==> seconds <= BOUNDS[n]
    ensures forall j | 0 <= j < n :: BOUNDS[j] < seconds
  {
    n := 0;
    while n < |BOUNDS|
      invariant n <= |BOUNDS| && SlotFrom(seconds, n) == Slot(seconds)
      invariant forall j | 0 <= j < n :: BOUNDS[j] < seconds
    {
      if seconds <= BOUNDS[n] {
        return;
      }
      n := n + 1;
    }
  }

  // ----- totals -----

  function Total(b: seq<nat>): nat {
    if b == [] then 0 else Total(Front(b)) + Last(b)
  }

  function Bump(b: seq<nat>, i: nat): seq<nat>
    requires i < |b|
  {
    b[i := b[i] + 1]
  }

  lemma {:induction false} TotalBump(b: seq<nat>, i: nat)
    requires i < |b|
    ensures Total(Bump(b, i)) == Total(b) + 1
  {
    var c := Bump(b, i);
    if i == |b| - 1 {
      assert Front(c) == Front(b);
    } else {
      TotalBump(Front(b), i);
      assert Front(c) == Bump(Front(b), i);
    }
  }

  ghost predicate Below(a: seq<nat>, b: seq<nat>) {
    |a| == |b| && forall i | 0 <= i < |a| :: a[i] <= b[i]
  }

  lemma {:induction false} TotalMono(a: seq<nat>, b: seq<nat>)
    requires Below(a, b)
    ensures Total(a) <= Total(b)
  {
    if a != [] { TotalMono(Front(a), Front(b)); }
  }

  lemma {:induction false} TotalPrefix(b: seq<nat>, i: nat)
    requires i <= |b|
    ensures Total(b[..i]) <= Total(b)
    decreases |b|
  {
    if i < |b| {
      TotalPrefix(Front(b), i);
      assert Front(b)[..i] == b[..i];
    } else {
      assert b[..i] == b;
    }
  }

  // ----- the machine -----

  datatype Key = Key(method_: string, code: int)

  /** `order` logs the observations in the order their additions to the sum took effect. */
  datatype Series = Series(key: Key, buckets: seq<nat>, sum: real, count: nat, order: seq<nat>)

  function NewSeries(key: Key): Series { Series(key, seq(SLOTS, _ => 0), 0.0, 0, []) }

  datatype Stage =
    | Missing
    | Found(sid: nat)
    | Bucketed(sid: nat)
    | Loaded(sid: nat, old_: real)
    | Summed(sid: nat)
    | Counted(sid: nat)

  /** One call of observe. */
  datatype Obs = Obs(key: Key, seconds: real, stage: Stage) {
    predicate PastBucket(sid: nat) { (stage.Bucketed? || stage.Loaded? || stage.Summed? || stage.Counted?) && stage.sid == sid }
    predicate PastSum(sid: nat) { (stage.Summed? || stage.Counted?) && stage.sid == sid }
    predicate PastCount(sid: nat) { stage.Counted? && stage.sid == sid }
  }

  /** The reads of one series by one scrape: the sum, then the count, then the buckets, cumulating. The
      remaining fields remember, for each read, which observations had got how far: `summed` at the read of
      the sum, `counted` and `base` (the buckets) at the read of the count, `seen` at the latest bucket. */
  datatype Scrape = Scrape(sid: nat, sum: real, count: Option<nat>, cumulative: seq<nat>,
                           summed: set<nat>, counted: set<nat>, base: seq<nat>, seen: set<nat>)

  datatype State = State(add: (real, real) -> real, registry: map<Key, nat>, store: map<nat, Series>,
                         obs: map<nat, Obs>, scrapes: map<nat, Scrape>)

  datatype Event =
    | Observe(o: nat, key: Key, seconds: real)
    | Create(o: nat, sid: nat)
    | AddBucket(o: nat)
    | Load(o: nat)
    | Cas(o: nat)
    | AddCount(o: nat)
    | ReadSum(x: nat, sid: nat)
    | ReadCount(x: nat)
    | ReadBucket(x: nat)

  ghost function PastBuckets(obs: map<nat, Obs>, sid: nat): set<nat> { set o | o in obs && obs[o].PastBucket(sid) }
  ghost function PastSums(obs: map<nat, Obs>, sid: nat): set<nat> { set o | o in obs && obs[o].PastSum(sid) }
  ghost function PastCounts(obs: map<nat, Obs>, sid: nat): set<nat> { set o | o in obs && obs[o].PastCount(sid) }

  /** The observations that have reached slot i of series sid. */
  ghost function InSlot(obs: map<nat, Obs>, sid: nat, i: nat): set<nat> {
    set o | o in obs && obs[o].PastBucket(sid) && Slot(obs[o].seconds) == i
  }

  ghost predicate Init(s: State) {
    s.registry == map[] && s.store == map[] && s.obs == map[] && s.scrapes == map[]
  }

  predicate Enabled(s: State, e: Event) {
    match e
    case Observe(o, _, _) => o !in s.obs
    case Create(o, sid) => o in s.obs && s.obs[o].stage.Missing? && sid !in s.store
    case AddBucket(o) => o in s.obs && s.obs[o].stage.Found? && OnSeries(s, o)
    case Load(o) => o in s.obs && s.obs[o].stage.Bucketed? && OnSeries(s, o)
    case Cas(o) => o in s.obs && s.obs[o].stage.Loaded? && OnSeries(s, o)
    case AddCount(o) => o in s.obs && s.obs[o].stage.Summed? && OnSeries(s, o)
    case ReadSum(x, sid) => x !in s.scrapes && sid in s.store
    case ReadCount(x) => x in s.scrapes && s.scrapes[x].count.None? && s.scrapes[x].sid in s.store
    case ReadBucket(x) =>
      && x in s.scrapes && s.scrapes[x].count.Some? && s.scrapes[x].sid in s.store
      && |s.scrapes[x].cumulative| < |s.store[s.scrapes[x].sid].buckets|
  }

  predicate OnSeries(s: State, o: nat)
    requires o in s.obs && !s.obs[o].stage.Missing?
  {
    s.obs[o].stage.sid in s.store && |s.store[s.obs[o].stage.sid].buckets| == SLOTS
  }

  function ApplyObs(s: State, e: Event): (Obs, map<Key, nat>, map<nat, Series>)
    requires Enabled(s, e) && !e.ReadSum? && !e.ReadCount? && !e.ReadBucket?
  {
    match e
    case Observe(_, key, seconds) =>
      (Obs(key, seconds, if key in s.registry then Found(s.registry[key]) else Missing), s.registry, s.store)
    case Create(o, sid) =>
      var ob := s.obs[o];
      if ob.key in s.registry then (ob.(stage := Found(s.registry[ob.key])), s.registry, s.store)
      else (ob.(stage := Found(sid)), s.registry[ob.key := sid], s.store[sid := NewSeries(ob.key)])
    case AddBucket(o) =>
      var ob, sid := s.obs[o], s.obs[o].stage.sid;
      var r := s.store[sid];
      SlotInRange(ob.seconds);
      (ob.(stage := Bucketed(sid)), s.registry, s.store[sid := r.(buckets := Bump(r.buckets, Slot(ob.seconds)))])
    case Load(o) =>
      var ob, sid := s.obs[o], s.obs[o].stage.sid;
      (ob.(stage := Loaded(sid, s.store[sid].sum)), s.registry, s.store)
    case Cas(o) =>
      var ob, sid := s.obs[o], s.obs[o].stage.sid;
      var r := s.store[sid];
      if r.sum == ob.stage.old_ then
        (ob.(stage := Summed(sid)), s.registry,
         s.store[sid := r.(sum := s.add(ob.stage.old_, ob.seconds), order := r.order + [o])])
      else (ob.(stage := Bucketed(sid)), s.registry, s.store)
    case AddCount(o) =>
      var ob, sid := s.obs[o], s.obs[o].stage.sid;
      var r := s.store[sid];
      (ob.(stage := Counted(sid)), s.registry, s.store[sid := r.(count := r.count + 1)])
  }

  lemma SlotInRange(x: real)
    ensures Slot(x) < SLOTS
  {
  }

  ghost function ApplyScrape(s: State, e: Event): Scrape
    requires Enabled(s, e) && (e.ReadSum? || e.ReadCount? || e.ReadBucket?)
  {
    match e
    case ReadSum(_, sid) => Scrape(sid, s.store[sid].sum, None, [], PastSums(s.obs, sid), {}, [], {})
    case ReadCount(x) =>
      var sc := s.scrapes[x];
      sc.(count := Some(s.store[sc.sid].count), counted := PastCounts(s.obs, sc.sid), base := s.store[sc.sid].buckets)
    case ReadBucket(x) =>
      var sc := s.scrapes[x];
      var running := if sc.cumulative == [] then 0 else Last(sc.cumulative);
      sc.(cumulative := sc.cumulative + [running + s.store[sc.sid].buckets[|sc.cumulative|]],
          seen := PastBuckets(s.obs, sc.sid))
  }

  ghost function Apply(s: State, e: Event): State
    requires Enabled(s, e)
  {
    if e.ReadSum? || e.ReadCount? || e.ReadBucket? then
      s.(scrapes := s.scrapes[e.x := ApplyScrape(s, e)])
    else
      var (ob, registry, store) := ApplyObs(s, e);
      s.(obs := s.obs[e.o := ob], registry := registry, store := store)
  }

  ghost predicate Next(s: State, e: Event, s': State) {
    Enabled(s, e) && s' == Apply(s, e)
  }

  /** Adding up the observations of `order`, in that order, with the machine's addition. */
  ghost function Accumulated(add: (real, real) -> real, obs: map<nat, Obs>, order: seq<nat>): real
    requires forall o | o in order :: o in obs
  {
    if order == [] then 0.0 else add(Accumulated(add, obs, Front(order)), obs[Last(order)].seconds)
  }
}
