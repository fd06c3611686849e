/** pkg/cache: a map split over 32 locked shards, with a sweeper that visits them one at a time, against one
    plain map that is never swept. Set reads the clock before it takes the lock and Get after it released
    it, so each is two steps. Instants are integer nanoseconds. */
module Cache {
  import opened Collections
  import opened Runs

  const SHARDS: nat := 32

  datatype Entry<V> = Entry(value: V, expiresAt: int)

  /** The mask is the remainder. */
  lemma MaskIsRemainder(h: bv64)
    ensures h & 31 == h % 32
  {
  }

  /** shardFor: maphash.Comparable(seed, key) & (shardCount - 1), for any 64-bit hash function. */
  function Home<K>(hash: K -> bv64, key: K): (i: nat)
    ensures i < SHARDS
  {
    MaskIsRemainder(hash(key));
    (hash(key) & 31) as nat
  }

  /** A key lives in the shard its hash leaves as the remainder by their number. */
  lemma ShardIsRemainder<K>(hash: K -> bv64, key: K)
    ensures Home(hash, key) == (hash(key) % 32) as nat
  {
    MaskIsRemainder(hash(key));
  }

  function Find<K(==), V>(m: map<K, Entry<V>>, key: K): Option<Entry<V>> {
    if key in m then Some(m[key]) else None
  }

  /** What Get returns at `now` for the entry it read. */
  function Answer<V>(e: Option<Entry<V>>, now: int): Option<V> {
    if e.None? || !(now < e.value.expiresAt) then None else Some(e.value.value)
  }

  /** The entries of one shard that are alive at `now`. */
  function Alive<K(==), V>(m: map<K, Entry<V>>, now: int): map<K, Entry<V>> {
    map k | k in m && now < m[k].expiresAt :: m[k]
  }

  /** A Set between reading the clock and writing. */
  datatype Pending<K, V> = Pending(key: K, entry: Entry<V>)

  /** `gets` holds, for each Get under way, the entry it read; `sweep` the instant the sweeper read and the next
      shard it visits. */
  datatype Sharded<!K, V> = Sharded(hash: K -> bv64, ttl: int, now: int, shards: seq<map<K, Entry<V>>>,
                                   sets: map<nat, Pending<K, V>>, gets: map<nat, Option<Entry<V>>>,
                                   sweep: Option<(int, nat)>)

  /** The cache as one map without a sweeper. */
  datatype Plain<!K, V> = Plain(ttl: int, now: int, entries: map<K, Entry<V>>,
                               sets: map<nat, Pending<K, V>>, gets: map<nat, Option<Entry<V>>>)

  datatype Event<K, V> =
    | Tick(to: int)
    | SetClock(i: nat, key: K, value: V)
    | SetWrite(i: nat)
    | GetRead(i: nat, key: K)
    | GetReturn(i: nat)
    | Delete(key: K)
    | SweepClock
    | SweepShard

  ghost predicate ShardedInit<K, V>(s: Sharded<K, V>) {
    && s.ttl > 0
    && |s.shards| == SHARDS && (forall i | 0 <= i < SHARDS :: s.shards[i] == map[])
    && s.sets == map[] && s.gets == map[] && s.sweep == None
  }

  ghost predicate ShardedNext<K, V>(s: Sharded<K, V>, e: Event<K, V>, s': Sharded<K, V>) {
    |s.shards| == SHARDS &&
    match e
    case Tick(to) => s.now <= to && s' == s.(now := to)
    case SetClock(i, key, value) =>
      i !in s.sets && s' == s.(sets := s.sets[i := Pending(key, Entry(value, s.now + s.ttl))])
    case SetWrite(i) =>
      && i in s.sets
      && var p := s.sets[i];
         var h := Home(s.hash, p.key);
         s' == s.(shards := s.shards[h := s.shards[h][p.key := p.entry]], sets := s.sets - {i})
    case GetRead(i, key) =>
      i !in s.gets && s' == s.(gets := s.gets[i := Find(s.shards[Home(s.hash, key)], key)])
    case GetReturn(i) => i in s.gets && s' == s.(gets := s.gets - {i})
    case Delete(key) =>
      var h := Home(s.hash, key);
      s' == s.(shards := s.shards[h := s.shards[h] - {key}])
    case SweepClock => s.sweep == None && s' == s.(sweep := Some((s.now, 0)))
    case SweepShard =>
      && s.sweep.Some? && s.sweep.value.1 < SHARDS
      && var (t, n) := s.sweep.value;
         s' == s.(shards := s.shards[n := Alive(s.shards[n], t)],
                  sweep := if n + 1 == SHARDS then None else Some((t, n + 1)))
  }

  ghost predicate PlainInit<K, V>(p: Plain<K, V>) {
    p.ttl > 0 && p.entries == map[] && p.sets == map[] && p.gets == map[]
  }

  ghost predicate PlainNext<K, V>(p: Plain<K, V>, e: Event<K, V>, p': Plain<K, V>) {
    match e
    case Tick(to) => p.now <= to && p' == p.(now := to)
    case SetClock(i, key, value) =>
      i !in p.sets && p' == p.(sets := p.sets[i := Pending(key, Entry(value, p.now + p.ttl))])
    case SetWrite(i) =>
      i in p.sets && p' == p.(entries := p.entries[p.sets[i].key := p.sets[i].entry], sets := p.sets - {i})
    case GetRead(i, key) => i !in p.gets && p' == p.(gets := p.gets[i := Find(p.entries, key)])
    case GetReturn(i) => i in p.gets && p' == p.(gets := p.gets - {i})
    case Delete(key) => p' == p.(entries := p.entries - {key})
    case SweepClock => p' == p
    case SweepShard => p' == p
  }

  // ----- the simulation -----

  function Lookup<K(==), V>(s: Sharded<K, V>, key: K): Option<Entry<V>>
    requires |s.shards| == SHARDS
  {
    Find(s.shards[Home(s.hash, key)], key)
  }

  /** Each key lives only in its own shard. */
  ghost predicate AtHome<K(!new), V>(s: Sharded<K, V>) {
    |s.shards| == SHARDS && forall i, k | 0 <= i < SHARDS && k in s.shards[i] :: Home(s.hash, k) == i
  }

  /** The sharded side shows what the plain side shows, or has dropped what nobody may see any more. */
  ghost predicate Agree<V>(shown: Option<Entry<V>>, plain: Option<Entry<V>>, now: int) {
    shown == plain || (shown.None? && plain.Some? && plain.value.expiresAt <= now)
  }

  ghost predicate Sim<K(!new), V>(s: Sharded<K, V>, p: Plain<K, V>) {
    && AtHome(s)
    && s.now == p.now && s.ttl == p.ttl && s.sets == p.sets
    && s.gets.Keys == p.gets.Keys
    && (forall k :: Agree(Lookup(s, k), Find(p.entries, k), s.now))
    && (forall i | i in s.gets :: Agree(s.gets[i], p.gets[i], s.now))
    && (s.sweep.Some? ==> s.sweep.value.0 <= s.now)
  }

  /** The plain counterpart of a step. */
  ghost function PlainStep<K, V>(p: Plain<K, V>, e: Event<K, V>): Plain<K, V> {
    match e
    case Tick(to) => p.(now := to)
    case SetClock(i, key, value) => p.(sets := p.sets[i := Pending(key, Entry(value, p.now + p.ttl))])
    case SetWrite(i) =>
      if i in p.sets then p.(entries := p.entries[p.sets[i].key := p.sets[i].entry], sets := p.sets - {i}) else p
    case GetRead(i, key) => p.(gets := p.gets[i := Find(p.entries, key)])
    case GetReturn(i) => p.(gets := p.gets - {i})
    case Delete(key) => p.(entries := p.entries - {key})
    case SweepClock => p
    case SweepShard => p
  }

  lemma SweepStep<K(!new), V>(s: Sharded<K, V>, p: Plain<K, V>, s': Sharded<K, V>)
    requires Sim(s, p) && ShardedNext(s, SweepShard, s')
    ensures Sim(s', p)
  {
    var (t, n) := s.sweep.value;
    forall k ensures Agree(Lookup(s', k), Find(p.entries, k), s'.now) {
      assert Agree(Lookup(s, k), Find(p.entries, k), s.now);
    }
  }

  lemma WriteStep<K(!new), V>(s: Sharded<K, V>, p: Plain<K, V>, e: Event<K, V>, s': Sharded<K, V>)
    requires Sim(s, p) && ShardedNext(s, e, s') && (e.SetWrite? || e.Delete?)
    ensures PlainNext(p, e, PlainStep(p, e)) && Sim(s', PlainStep(p, e))
  {
    var p' := PlainStep(p, e);
    forall k ensures Agree(Lookup(s', k), Find(p'.entries, k), s'.now) {
      assert Agree(Lookup(s, k), Find(p.entries, k), s.now);
    }
  }

  lemma OtherStep<K(!new), V>(s: Sharded<K, V>, p: Plain<K, V>, e: Event<K, V>, s': Sharded<K, V>)
    requires Sim(s, p) && ShardedNext(s, e, s') && !e.SetWrite? && !e.Delete? && !e.SweepShard?
    ensures PlainNext(p, e, PlainStep(p, e)) && Sim(s', PlainStep(p, e))
  {
    var p' := PlainStep(p, e);
    forall k ensures Agree(Lookup(s', k), Find(p'.entries, k), s'.now) {
      assert Agree(Lookup(s, k), Find(p.entries, k), s.now);
    }
  }

  lemma SimStep<K(!new), V>(s: Sharded<K, V>, p: Plain<K, V>, e: Event<K, V>, s': Sharded<K, V>)
    requires Sim(s, p) && ShardedNext(s, e, s')
    ensures PlainNext(p, e, PlainStep(p, e)) && Sim(s', PlainStep(p, e))
  {
    if e.SweepShard? {
      SweepStep(s, p, s');
    } else if e.SetWrite? || e.Delete? {
      WriteStep(s, p, e, s');
    } else {
      OtherStep(s, p, e, s');
    }
  }

  /** Refinement: for any hash function, every run of the sharded cache, sweeps interleaved anywhere and with a
      stale instant, is matched step by step by a run of the one plain map without a sweeper, and every Get
      returns the same in both. */
  lemma {:induction false} ShardedRefinesPlain<K(!new), V(!new)>(ss: seq<Sharded<K, V>>, es: seq<Event<K, V>>)
      returns (ps: seq<Plain<K, V>>)
    requires Run(ShardedInit, ShardedNext, ss, es)
    ensures Run(PlainInit, PlainNext, ps, es)
    ensures forall k | 0 <= k < |ss| :: Sim(ss[k], ps[k])
    ensures forall k | 0 <= k < |es| && es[k].GetReturn? ::
              && es[k].i in ss[k].gets && es[k].i in ps[k].gets
              && Answer(ss[k].gets[es[k].i], ss[k].now) == Answer(ps[k].gets[es[k].i], ps[k].now)
  {
    var p0 := Plain(ss[0].ttl, ss[0].now, map[], map[], map[]);
    ps := [p0];
    var n := 0;
    while n < |es|
      invariant n <= |es| && |ps| == n + 1
      invariant PlainInit(ps[0])
      invariant forall k | 0 <= k < n :: PlainNext(ps[k], es[k], ps[k + 1])
      invariant forall k | 0 <= k <= n :: Sim(ss[k], ps[k])
    {
      assert ShardedNext(ss[n], es[n], ss[n + 1]);
      SimStep(ss[n], ps[n], es[n], ss[n + 1]);
      ps := ps + [PlainStep(ps[n], es[n])];
      n := n + 1;
    }
    forall k | 0 <= k < |es| && es[k].GetReturn?
      ensures && es[k].i in ss[k].gets && es[k].i in ps[k].gets
              && Answer(ss[k].gets[es[k].i], ss[k].now) == Answer(ps[k].gets[es[k].i], ps[k].now)
    {
      SameAnswer(ss[k], ps[k], es[k].i, ss[k + 1]);
    }
  }

  lemma SameAnswer<K(!new), V(!new)>(s: Sharded<K, V>, p: Plain<K, V>, i: nat, s': Sharded<K, V>)
    requires Sim(s, p) && ShardedNext(s, GetReturn(i), s')
    ensures i in s.gets && i in p.gets && Answer(s.gets[i], s.now) == Answer(p.gets[i], p.now)
  {
    assert Agree(s.gets[i], p.gets[i], s.now);
  }

  // ----- what a Get means -----

  /** What the last write or deletion of `key` among the first n steps left: the value with its deadline, or nothing. */
  ghost function LastWritten<K, V>(ss: seq<Sharded<K, V>>, es: seq<Event<K, V>>, n: nat, key: K): Option<Entry<V>>
    requires n <= |es| < |ss|
  {
    if n == 0 then None
    else
      match es[n - 1]
      case SetWrite(i) =>
        if i in ss[n - 1].sets && ss[n - 1].sets[i].key == key then Some(ss[n - 1].sets[i].entry)
        else LastWritten(ss, es, n - 1, key)
      case Delete(k) => if k == key then None else LastWritten(ss, es, n - 1, key)
      case _ => LastWritten(ss, es, n - 1, key)
  }

  lemma {:induction false} PlainHoldsLastWritten<K(!new), V(!new)>(
      ss: seq<Sharded<K, V>>, ps: seq<Plain<K, V>>, es: seq<Event<K, V>>, n: nat, key: K)
    requires Run(PlainInit, PlainNext, ps, es) && |ss| == |ps| && n <= |es|
    requires forall k | 0 <= k < |ss| :: Sim(ss[k], ps[k])
    ensures Find(ps[n].entries, key) == LastWritten(ss, es, n, key)
  {
    if n > 0 {
      PlainHoldsLastWritten(ss, ps, es, n - 1, key);
      assert PlainNext(ps[n - 1], es[n - 1], ps[n - 1 + 1]);
      assert Sim(ss[n - 1], ps[n - 1]);
    }
  }

  /** Between its two steps a Get keeps what it read. */
  lemma {:induction false} ReadKept<K(!new), V(!new)>(ps: seq<Plain<K, V>>, es: seq<Event<K, V>>, r: nat, k: nat, i: nat)
    requires Run(PlainInit, PlainNext, ps, es) && r <= k <= |es| && i in ps[r].gets
    requires forall j | r <= j < k :: es[j] != GetReturn(i)
    ensures i in ps[k].gets && ps[k].gets[i] == ps[r].gets[i] && ps[r].now <= ps[k].now
    decreases k - r
  {
    if r < k {
      ReadKept(ps, es, r, k - 1, i);
      assert PlainNext(ps[k - 1], es[k - 1], ps[k - 1 + 1]);
      assert es[k - 1] != GetReturn(i);
    }
  }

  /** What a Get returns in every run, whatever the sweeper does: a Get that read at step r and returns at step k finds
      the value of the last Set of its key before r that no Delete followed, exactly while the deadline that Set gave
      it has not come. */
  lemma GetReturnsLastSet<K(!new), V(!new)>(ss: seq<Sharded<K, V>>, es: seq<Event<K, V>>, r: nat, k: nat, i: nat, key: K)
    requires Run(ShardedInit, ShardedNext, ss, es) && r < k < |es|
    requires es[r] == GetRead(i, key) && es[k] == GetReturn(i) && forall j | r < j < k :: es[j] != GetReturn(i)
    ensures i in ss[k].gets
    ensures var w := LastWritten(ss, es, r, key);
            forall v :: Answer(ss[k].gets[i], ss[k].now) == Some(v)
                        <==> w.Some? && w.value.value == v && ss[k].now < w.value.expiresAt
  {
    var ps := ShardedRefinesPlain(ss, es);
    PlainHoldsLastWritten(ss, ps, es, r, key);
    assert PlainNext(ps[r], es[r], ps[r + 1]);
    ReadKept(ps, es, r + 1, k, i);
    assert Sim(ss[k], ps[k]);
  }

  /** What a Set writes at step b, in every run: the value it was given, with the clock it read at step a plus the TTL
      as the deadline, however long it waited for the lock in between. */
  lemma {:induction false} SetWritesClockPlusTTL<K(!new), V(!new)>(
      ss: seq<Sharded<K, V>>, es: seq<Event<K, V>>, a: nat, b: nat, i: nat, key: K, value: V)
    requires Run(ShardedInit, ShardedNext, ss, es) && a < b <= |es|
    requires es[a] == SetClock(i, key, value) && forall j | a < j < b :: es[j] != SetWrite(i)
    ensures i in ss[b].sets && ss[b].sets[i] == Pending(key, Entry(value, ss[a].now + ss[a].ttl))
    decreases b
  {
    assert ShardedNext(ss[b - 1], es[b - 1], ss[b - 1 + 1]);
    if a < b - 1 {
      SetWritesClockPlusTTL(ss, es, a, b - 1, i, key, value);
      assert es[b - 1] != SetWrite(i);
    }
  }

  /** The write at step b is the last one before r: no other Set of the key wrote and no Delete of it came in between. */
  lemma {:induction false} LastWriteStands<K(!new), V(!new)>(
      ss: seq<Sharded<K, V>>, es: seq<Event<K, V>>, b: nat, r: nat, i: nat, key: K)
    requires b < r <= |es| < |ss| && es[b] == SetWrite(i) && i in ss[b].sets && ss[b].sets[i].key == key
    requires forall j, n | b < j < r && es[j] == SetWrite(n) :: !(n in ss[j].sets && ss[j].sets[n].key == key)
    requires forall j | b < j < r :: es[j] != Delete(key)
    ensures LastWritten(ss, es, r, key) == Some(ss[b].sets[i].entry)
    decreases r
  {
    if b < r - 1 {
      LastWriteStands(ss, es, b, r - 1, i, key);
      assert es[r - 1] != Delete(key);
      if es[r - 1].SetWrite? { assert es[r - 1] == SetWrite(es[r - 1].i); }
    }
  }

  /** From Set to Get, in every run and whatever the sweeper does: a Set that reads the clock at step a and writes at b,
      with no other write or deletion of its key before a Get reads at r, is what that Get returns at k, exactly while
      the instant is before the clock the Set read plus the TTL. */
  lemma SetThenGet<K(!new), V(!new)>(ss: seq<Sharded<K, V>>, es: seq<Event<K, V>>, a: nat, b: nat, r: nat, k: nat,
                                     i: nat, g: nat, key: K, value: V)
    requires Run(ShardedInit, ShardedNext, ss, es) && a < b < r < k < |es|
    requires es[a] == SetClock(i, key, value) && es[b] == SetWrite(i) && forall j | a < j < b :: es[j] != SetWrite(i)
    requires forall j, n | b < j < r && es[j] == SetWrite(n) :: !(n in ss[j].sets && ss[j].sets[n].key == key)
    requires forall j | b < j < r :: es[j] != Delete(key)
    requires es[r] == GetRead(g, key) && es[k] == GetReturn(g) && forall j | r < j < k :: es[j] != GetReturn(g)
    ensures g in ss[k].gets
    ensures Answer(ss[k].gets[g], ss[k].now) == if ss[k].now < ss[a].now + ss[a].ttl then Some(value) else None
  {
    SetWritesClockPlusTTL(ss, es, a, b, i, key, value);
    LastWriteStands(ss, es, b, r, i, key);
    GetReturnsLastSet(ss, es, r, k, g, key);
    var answer := Answer(ss[k].gets[g], ss[k].now);
    assert answer == Some(value) <==> ss[k].now < ss[a].now + ss[a].ttl;
    if answer.Some? { assert answer == Some(answer.value); }
  }

  /** No call is ever stuck: a Set under way can write, a Get under way can return, hit or miss, and a sweep under way can
      visit its next shard. */
  lemma NeverStuck<K(!new), V(!new)>(ss: seq<Sharded<K, V>>, es: seq<Event<K, V>>, k: nat, i: nat)
    requires Run(ShardedInit, ShardedNext, ss, es) && k < |ss|
    ensures i in ss[k].sets ==> exists t :: ShardedNext(ss[k], SetWrite(i), t)
    ensures i in ss[k].gets ==> exists t :: ShardedNext(ss[k], GetReturn(i), t)
    ensures ss[k].sweep.Some? ==> exists t :: ShardedNext(ss[k], SweepShard, t)
  {
    forall j | 0 <= j < k && SweepOk(ss[j]) ensures SweepOk(ss[j + 1]) { assert ShardedNext(ss[j], es[j], ss[j + 1]); }
    FromThenOn((s: Sharded<K, V>) => SweepOk(s), ss, 0, k);
    var s := ss[k];
    if i in s.sets {
      var p, h := s.sets[i], Home(s.hash, s.sets[i].key);
      assert ShardedNext(s, SetWrite(i), s.(shards := s.shards[h := s.shards[h][p.key := p.entry]], sets := s.sets - {i}));
    }
    if i in s.gets { assert ShardedNext(s, GetReturn(i), s.(gets := s.gets - {i})); }
    if s.sweep.Some? {
      var (t, n) := s.sweep.value;
      assert ShardedNext(s, SweepShard, s.(shards := s.shards[n := Alive(s.shards[n], t)],
                                           sweep := if n + 1 == SHARDS then None else Some((t, n + 1))));
    }
  }

  ghost predicate SweepOk<K, V>(s: Sharded<K, V>) {
    |s.shards| == SHARDS && (s.sweep.Some? ==> s.sweep.value.1 < SHARDS)
  }

  /** The sweep of a shard reclaims exactly what had expired at the instant the sweeper read, and moves on. */
  lemma SweepReclaims<K(!new), V(!new)>(ss: seq<Sharded<K, V>>, es: seq<Event<K, V>>, k: nat)
    requires Run(ShardedInit, ShardedNext, ss, es) && k < |es| && es[k] == SweepShard
    ensures ss[k].sweep.Some? && ss[k].sweep.value.1 < |ss[k].shards| == |ss[k + 1].shards| == SHARDS
    ensures var (t, n) := ss[k].sweep.value;
            && (forall key :: key in ss[k + 1].shards[n] <==> key in ss[k].shards[n] && t < ss[k].shards[n][key].expiresAt)
            && (forall key | key in ss[k + 1].shards[n] :: ss[k + 1].shards[n][key] == ss[k].shards[n][key])
            && (forall j | 0 <= j < SHARDS && j != n :: ss[k + 1].shards[j] == ss[k].shards[j])
            && ss[k + 1].sweep == if n == SHARDS - 1 then None else Some((t, n + 1))
  {
    assert ShardedNext(ss[k], es[k], ss[k + 1]);
  }

  // ----- the object -----

  class TTLCache<K(==, !new), V> {
    const hash: K -> bv64
    const ttl: int
    const shards: array<map<K, Entry<V>>>

    ghost predicate Valid()
      reads this, shards
    {
      && shards.Length == SHARDS
      && forall i, k | 0 <= i < SHARDS && k in shards[i] :: Home(hash, k) == i
    }

    /** The entry stored for a key, expired or not. */
    ghost function Stored(key: K): Option<Entry<V>>
      requires shards.Length == SHARDS
      reads this, shards
    {
      Find(shards[Home(hash, key)], key)
    }

    /** New on a positive TTL; it panics on all others. */
    constructor (hash: K -> bv64, ttl: int)
      requires ttl > 0
      ensures Valid() && fresh(shards) && this.hash == hash && this.ttl == ttl
      ensures forall k :: Stored(k) == None
    {
      this.hash, this.ttl := hash, ttl;
      shards := new map<K, Entry<V>>[SHARDS](_ => map[]);
    }

    method Set(key: K, value: V, now: int)
      requires Valid()
      modifies shards
      ensures Valid()
      ensures forall k :: Stored(k) == if k == key then Some(Entry(value, now + ttl)) else old(Stored(k))
    {
      var deadline := now + ttl;
      var h := Home(hash, key);
      shards[h] := shards[h][key := Entry(value, deadline)];
    }

    method Get(key: K, now: int) returns (r: Option<V>)
      requires Valid()
      ensures r == Answer(Stored(key), now)
      ensures forall v :: r == Some(v) <==>
                Stored(key).Some? && Stored(key).value.value == v && now < Stored(key).value.expiresAt
    {
      var m := shards[Home(hash, key)];
      if key !in m || !(now < m[key].expiresAt) {
        return None;
      }
      return Some(m[key].value);
    }

    method Delete(key: K)
      requires Valid()
      modifies shards
      ensures Valid()
      ensures forall k :: Stored(k) == if k == key then None else old(Stored(k))
    {
      var h := Home(hash, key);
      shards[h] := shards[h] - {key};
    }

    /** One uninterrupted sweep: it removes what had expired at `now`, and nothing else. */
    method RemoveExpired(now: int)
      requires Valid()
      modifies shards
      ensures Valid()
      ensures forall k :: Stored(k) ==
                if old(Stored(k)).Some? && old(Stored(k)).value.expiresAt <= now then None else old(Stored(k))
      ensures forall k, t | now <= t :: Answer(Stored(k), t) == Answer(old(Stored(k)), t)
    {
      var i := 0;
      while i < SHARDS
        invariant i <= SHARDS && shards.Length == SHARDS
        invariant forall j | 0 <= j < SHARDS :: shards[j] == if j < i then Alive(old(shards[j]), now) else old(shards[j])
      {
        SweepOne(i, now);
        i := i + 1;
      }
    }

    /** The sweep of one shard under its lock. */
    method SweepOne(i: nat, now: int)
      requires i < shards.Length
      modifies shards
      ensures shards[i] == Alive(old(shards[i]), now)
      ensures forall j | 0 <= j < shards.Length && j != i :: shards[j] == old(shards[j])
    {
      var m := shards[i];
      var todo := m.Keys;
      while todo != {}
        invariant todo <= m.Keys
        invariant shards[i].Keys == set k | k in m && (k in todo || now < m[k].expiresAt)
        invariant forall k | k in shards[i] :: shards[i][k] == m[k]
        invariant forall j | 0 <= j < shards.Length && j != i :: shards[j] == old(shards[j])
      {
        var k :| k in todo;
        if !(now < m[k].expiresAt) {
          shards[i] := shards[i] - {k};
        }
        todo := todo - {k};
      }
      assert shards[i] == Alive(m, now);
    }
  }
}
