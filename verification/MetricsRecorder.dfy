/** pkg/metrics: the Recorder object: labels, recording without interference, and the order of a scrape. */
module MetricsRecorder {
  import opened Collections
  import opened Runs
  import opened Metrics
  import MetricsSafety

  // ----- label values -----

  const KNOWN: seq<string> :=
    ["GET", "HEAD", "POST", "PUT", "PATCH", "DELETE", "CONNECT", "OPTIONS", "TRACE"]

  function NormalizeMethod(m: string): string { if m in KNOWN then m else "other" }

  ghost function LabelIndex(m: string): (i: nat)
    requires m in KNOWN || m == "other"
    ensures i < 10
    ensures if m == "other" then i == 9 else i < |KNOWN| && KNOWN[i] == m
  {
    if m == "other" then 9 else var i :| 0 <= i < |KNOWN| && KNOWN[i] == m; i
  }

  /** The nine methods the handler knows keep their names, in upper case; every other one, whatever a client sends,
      becomes "other". */
  lemma MethodLabels(m: string)
    ensures NormalizeMethod(m)
            == if m == "GET" || m == "HEAD" || m == "POST" || m == "PUT" || m == "PATCH" || m == "DELETE"
                  || m == "CONNECT" || m == "OPTIONS" || m == "TRACE" then m else "other"
  {
    var names := ["GET", "HEAD", "POST", "PUT", "PATCH", "DELETE", "CONNECT", "OPTIONS", "TRACE"];
    forall i | 0 <= i < |names| ensures names[i] in KNOWN { }
  }

  lemma {:induction false} CardBelow<A>(s: set<A>, f: A -> nat, n: nat)
    requires forall x | x in s :: f(x) < n
    requires forall x, y | x in s && y in s && f(x) == f(y) :: x == y
    ensures |s| <= n
  {
    if n == 0 {
      assert s == {};
    } else if x :| x in s && f(x) == n - 1 {
      CardBelow(s - {x}, f, n - 1);
      CardFlip(s, s - {x}, x);
    } else {
      CardBelow(s, f, n - 1);
    }
  }

  ghost predicate Bounded(k: Key) { (k.method_ in KNOWN || k.method_ == "other") && 100 <= k.code <= 999 }

  lemma LabelPairs(keys: set<Key>)
    requires forall k | k in keys :: Bounded(k)
    ensures |keys| <= 9000
  {
    var f := (k: Key) => KeyIndex(k);
    forall x, y | x in keys && y in keys && f(x) == f(y) ensures x == y { KeyIndexInjective(x, y); }
    forall x | x in keys ensures f(x) < 9000 { }
    CardBelow(keys, f, 9000);
  }

  /** Steps in which requests are recorded as the middleware does: any method, normalised, and a status code that
      net/http can write. */
  ghost predicate ServedNext(s: State, e: Event, s': State) {
    Next(s, e, s') && (e.Observe? ==> (exists m: string :: e.key.method_ == NormalizeMethod(m)) && 100 <= e.key.code <= 999)
  }

  ghost predicate AllBounded(s: State) {
    (forall o | o in s.obs :: Bounded(s.obs[o].key)) && (forall k | k in s.registry :: Bounded(k))
  }

  lemma StepBounded(s: State, e: Event, s': State)
    requires AllBounded(s) && ServedNext(s, e, s')
    ensures AllBounded(s')
  {
    if e.Observe? {
      var m: string :| e.key.method_ == NormalizeMethod(m);
    }
  }

  /** However many requests are served, and whatever methods they carry, a Recorder never holds more than 9000 series. */
  lemma CardinalityBound(ss: seq<State>, es: seq<Event>, k: nat)
    requires Run(Init, ServedNext, ss, es) && k < |ss|
    ensures |ss[k].registry| <= 9000
  {
    forall s, e, s' | AllBounded(s) && ServedNext(s, e, s') ensures AllBounded(s') { StepBounded(s, e, s'); }
    Invariance(Init, ServedNext, AllBounded, ss, es, k);
    LabelPairs(ss[k].registry.Keys);
  }

  ghost function KeyIndex(k: Key): nat {
    if Bounded(k) then LabelIndex(k.method_) * 900 + (k.code - 100) else 0
  }

  lemma KeyIndexInjective(x: Key, y: Key)
    requires Bounded(x) && Bounded(y) && KeyIndex(x) == KeyIndex(y)
    ensures x == y
  {
    assert LabelIndex(x.method_) == LabelIndex(y.method_);
  }

  // ----- rendering and comparing label values -----

  function Digit(d: nat): char
    requires d < 10
  {
    ('0' as int + d) as char
  }

  function Digits(n: nat): string {
    if n < 10 then [Digit(n)] else Digits(n / 10) + [Digit(n % 10)]
  }

  /** strconv.Itoa */
  function Itoa(n: int): string { if n < 0 then "-" + Digits(-n) else Digits(n) }

  function Value(s: string): int {
    if s == [] then 0 else Value(Front(s)) * 10 + (Last(s) as int - '0' as int)
  }

  lemma {:induction false} DigitsRoundTrip(n: nat)
    ensures Value(Digits(n)) == n
    ensures Digits(n) != [] && Digits(n)[0] != '-'
  {
    if n < 10 {
      assert Front(Digits(n)) == [];
    } else {
      DigitsRoundTrip(n / 10);
      assert Front(Digits(n)) == Digits(n / 10);
    }
  }

  /** Different status codes have different labels. */
  lemma ItoaInjective(a: int, b: int)
    requires Itoa(a) == Itoa(b)
    ensures a == b
  {
    DigitsRoundTrip(if a < 0 then -a else a);
    DigitsRoundTrip(if b < 0 then -b else b);
    if a < 0 && b < 0 {
      assert Itoa(a)[1..] == Digits(-a) && Itoa(b)[1..] == Digits(-b);
    }
  }

  /** strings.Compare(a, b) < 0 */
  predicate StrLess(a: string, b: string) {
    if b == [] then false
    else if a == [] then true
    else if a[0] != b[0] then a[0] < b[0]
    else StrLess(a[1..], b[1..])
  }

  /** `a` comes before `b` in a dictionary: it is a proper beginning of b, or smaller where they first differ. */
  ghost predicate Lexicographic(a: string, b: string) {
    a < b || exists i :: 0 <= i < |a| && i < |b| && a[..i] == b[..i] && a[i] < b[i]
  }

  lemma LexicographicHead(a: string, b: string)
    requires a != [] && b != [] && a[0] != b[0]
    ensures Lexicographic(a, b) <==> a[0] < b[0]
  {
    assert forall i | 0 < i < |a| && i < |b| :: a[..i][0] == a[0] && b[..i][0] == b[0];
    if a[0] < b[0] { assert a[..0] == b[..0]; }
  }

  lemma LexicographicTail(a: string, b: string)
    requires a != [] && b != [] && a[0] == b[0]
    ensures Lexicographic(a, b) <==> Lexicographic(a[1..], b[1..])
  {
    var x, y := a[1..], b[1..];
    assert a == [a[0]] + x && b == [b[0]] + y;
    if i :| 0 <= i < |x| && i < |y| && x[..i] == y[..i] && x[i] < y[i] {
      assert a[..i + 1] == [a[0]] + x[..i] && b[..i + 1] == [b[0]] + y[..i];
      assert a[i + 1] < b[i + 1];
    }
    if i :| 0 <= i < |a| && i < |b| && a[..i] == b[..i] && a[i] < b[i] {
      assert x[..i - 1] == a[..i][1..] && y[..i - 1] == b[..i][1..];
      assert x[i - 1] < y[i - 1];
    }
  }

  /** What strings.Compare decides is the order of a dictionary. */
  lemma {:induction false} StrLessMeaning(a: string, b: string)
    ensures StrLess(a, b) <==> Lexicographic(a, b)
  {
    if a != [] && b != [] {
      if a[0] == b[0] {
        LexicographicTail(a, b);
        StrLessMeaning(a[1..], b[1..]);
      } else {
        LexicographicHead(a, b);
      }
    }
  }

  /** The codes net/http can write are rendered in three digits, so that they compare as the numbers they are. */
  lemma CodesCompare(a: int, b: int)
    requires 100 <= a <= 999 && 100 <= b <= 999
    ensures StrLess(Itoa(a), Itoa(b)) <==> a < b
  {
    ThreeDigits(a);
    ThreeDigits(b);
    StrLessThree(a / 100, a / 10 % 10, a % 10, b / 100, b / 10 % 10, b % 10);
    Decimal(a);
    Decimal(b);
    DigitwiseIsNumeric(a / 100, a / 10 % 10, a % 10, b / 100, b / 10 % 10, b % 10);
  }

  lemma ThreeDigits(n: nat)
    requires 100 <= n <= 999
    ensures Itoa(n) == [Digit(n / 100), Digit(n / 10 % 10), Digit(n % 10)]
  {
    assert Digits(n / 10) == Digits(n / 100) + [Digit(n / 10 % 10)];
  }

  ghost predicate DigitwiseLess(x: nat, y: nat, z: nat, u: nat, v: nat, w: nat) {
    x < u || (x == u && (y < v || (y == v && z < w)))
  }

  lemma Decimal(n: nat)
    ensures n == 100 * (n / 100) + 10 * (n / 10 % 10) + n % 10
  {
    var t := n / 10;
    assert t / 10 == n / 100;
    assert t == 10 * (t / 10) + t % 10;
  }

  lemma DigitwiseIsNumeric(x: nat, y: nat, z: nat, u: nat, v: nat, w: nat)
    requires y < 10 && z < 10 && v < 10 && w < 10
    ensures DigitwiseLess(x, y, z, u, v, w) <==> 100 * x + 10 * y + z < 100 * u + 10 * v + w
  {
  }

  lemma StrLessThree(x: nat, y: nat, z: nat, u: nat, v: nat, w: nat)
    requires x < 10 && y < 10 && z < 10 && u < 10 && v < 10 && w < 10
    ensures StrLess([Digit(x), Digit(y), Digit(z)], [Digit(u), Digit(v), Digit(w)]) <==> DigitwiseLess(x, y, z, u, v, w)
  {
    StrLessDigit(x, [Digit(y), Digit(z)], u, [Digit(v), Digit(w)]);
    StrLessDigit(y, [Digit(z)], v, [Digit(w)]);
    StrLessDigit(z, [], w, []);
    assert [Digit(x), Digit(y), Digit(z)] == [Digit(x)] + [Digit(y), Digit(z)];
    assert [Digit(u), Digit(v), Digit(w)] == [Digit(u)] + [Digit(v), Digit(w)];
    assert [Digit(y), Digit(z)] == [Digit(y)] + [Digit(z)] && [Digit(v), Digit(w)] == [Digit(v)] + [Digit(w)];
    assert [Digit(z)] == [Digit(z)] + [] && [Digit(w)] == [Digit(w)] + [];
  }

  lemma StrLessDigit(x: nat, xs: string, y: nat, ys: string)
    requires x < 10 && y < 10
    ensures StrLess([Digit(x)] + xs, [Digit(y)] + ys) <==> x < y || (x == y && StrLess(xs, ys))
  {
    var a, b := [Digit(x)] + xs, [Digit(y)] + ys;
    assert a[1..] == xs && b[1..] == ys;
  }

  lemma {:induction false} StrTrichotomy(a: string, b: string)
    ensures !(StrLess(a, b) && StrLess(b, a))
    ensures a != b ==> StrLess(a, b) || StrLess(b, a)
    ensures a == b ==> !StrLess(a, b)
  {
    if a != [] && b != [] && a[0] == b[0] {
      StrTrichotomy(a[1..], b[1..]);
      assert a == [a[0]] + a[1..] && b == [b[0]] + b[1..];
    }
  }

  lemma {:induction false} StrTransitive(a: string, b: string, c: string)
    requires StrLess(a, b) && StrLess(b, c)
    ensures StrLess(a, c)
  {
    if a != [] && a[0] == b[0] == c[0] { StrTransitive(a[1..], b[1..], c[1..]); }
  }

  datatype Snapshot = Snapshot(method_: string, code: string, buckets: seq<nat>, sum: real, count: nat)

  /** The comparison collect sorts by: code first, then method. */
  predicate Less(a: Snapshot, b: Snapshot) {
    if a.code != b.code then StrLess(a.code, b.code) else StrLess(a.method_, b.method_)
  }

  predicate SameLabels(a: Snapshot, b: Snapshot) { a.code == b.code && a.method_ == b.method_ }

  lemma LessTotal(a: Snapshot, b: Snapshot)
    ensures !(Less(a, b) && Less(b, a))
    ensures !SameLabels(a, b) ==> Less(a, b) || Less(b, a)
    ensures SameLabels(a, b) ==> !Less(a, b)
  {
    StrTrichotomy(a.code, b.code);
    StrTrichotomy(a.method_, b.method_);
  }

  lemma LessTransitive(a: Snapshot, b: Snapshot, c: Snapshot)
    requires Less(a, b) && Less(b, c)
    ensures Less(a, c)
  {
    StrTrichotomy(a.code, b.code);
    StrTrichotomy(b.code, c.code);
    if a.code == b.code == c.code {
      StrTransitive(a.method_, b.method_, c.method_);
    } else if a.code != b.code && b.code != c.code {
      StrTransitive(a.code, b.code, c.code);
    }
  }

  /** The order of two series in a scrape: by status code, as a number, and then by method. */
  ghost predicate Before(a: Key, b: Key) { a.code < b.code || (a.code == b.code && Lexicographic(a.method_, b.method_)) }

  ghost predicate Labelled(snap: Snapshot, key: Key) { snap.method_ == key.method_ && snap.code == Itoa(key.code) }

  lemma LessIsBefore(a: Snapshot, b: Snapshot, x: Key, y: Key)
    requires Labelled(a, x) && Labelled(b, y) && 100 <= x.code <= 999 && 100 <= y.code <= 999
    ensures Less(a, b) <==> Before(x, y)
  {
    CodesCompare(x.code, y.code);
    if a.code == b.code { ItoaInjective(x.code, y.code); }
    StrLessMeaning(a.method_, b.method_);
  }

  /** Each entry of a scrape comes before the next ones: by status code and then by method. */
  ghost predicate InLabelOrder(out: seq<Snapshot>) {
    forall i, j, x, y | 0 <= i < j < |out| && Labelled(out[i], x) && Labelled(out[j], y)
                        && 100 <= x.code <= 999 && 100 <= y.code <= 999 :: Before(x, y)
  }

  lemma SortedByLabels(out: seq<Snapshot>)
    requires StrictlySorted(out)
    ensures InLabelOrder(out)
  {
    forall i, j, x, y | 0 <= i < j < |out| && Labelled(out[i], x) && Labelled(out[j], y)
                        && 100 <= x.code <= 999 && 100 <= y.code <= 999
      ensures Before(x, y)
    {
      LessIsBefore(out[i], out[j], x, y);
    }
  }

  // ----- slices.SortFunc, as insertion sort -----

  function Insert(x: Snapshot, xs: seq<Snapshot>): seq<Snapshot> {
    if xs == [] || Less(x, xs[0]) then [x] + xs else [xs[0]] + Insert(x, xs[1..])
  }

  function Sort(xs: seq<Snapshot>): seq<Snapshot> {
    if xs == [] then [] else Insert(xs[0], Sort(xs[1..]))
  }

  ghost predicate StrictlySorted(xs: seq<Snapshot>) { forall i, j | 0 <= i < j < |xs| :: Less(xs[i], xs[j]) }

  ghost predicate DistinctLabels(xs: seq<Snapshot>) { forall i, j | 0 <= i < j < |xs| :: !SameLabels(xs[i], xs[j]) }

  lemma {:induction false} InsertKeeps(x: Snapshot, xs: seq<Snapshot>)
    ensures multiset(Insert(x, xs)) == multiset(xs) + multiset{x}
    ensures forall y :: y in Insert(x, xs) <==> y == x || y in xs
  {
    if xs != [] && !Less(x, xs[0]) {
      InsertKeeps(x, xs[1..]);
      assert xs == [xs[0]] + xs[1..];
    }
  }

  lemma {:induction false} InsertSorted(x: Snapshot, xs: seq<Snapshot>)
    requires StrictlySorted(xs) && forall i | 0 <= i < |xs| :: !SameLabels(x, xs[i])
    ensures StrictlySorted(Insert(x, xs))
  {
    if xs == [] {
    } else if Less(x, xs[0]) {
      forall i | 0 <= i < |xs| ensures Less(x, xs[i]) {
        if i > 0 { LessTransitive(x, xs[0], xs[i]); }
      }
    } else {
      LessTotal(x, xs[0]);
      assert StrictlySorted(xs[1..]);
      InsertSorted(x, xs[1..]);
      InsertKeeps(x, xs[1..]);
      var r := Insert(x, xs[1..]);
      forall i | 0 <= i < |r| ensures Less(xs[0], r[i]) {
        assert r[i] in r;
        if r[i] != x {
          assert r[i] in xs[1..];
          var j :| 0 <= j < |xs[1..]| && xs[1..][j] == r[i];
          assert Less(xs[0], xs[j + 1]);
        }
      }
    }
  }

  /** Sorting snapshots with distinct labels gives a strictly increasing permutation of them. */
  lemma {:induction false} SortCorrect(xs: seq<Snapshot>)
    requires DistinctLabels(xs)
    ensures StrictlySorted(Sort(xs)) && multiset(Sort(xs)) == multiset(xs)
    ensures forall y :: y in Sort(xs) <==> y in xs
  {
    if xs != [] {
      var rest := xs[1..];
      SortCorrect(rest);
      var sorted := Sort(rest);
      forall i | 0 <= i < |sorted| ensures !SameLabels(xs[0], sorted[i]) {
        assert sorted[i] in sorted;
        var j :| 0 <= j < |rest| && rest[j] == sorted[i];
        assert !SameLabels(xs[0], xs[j + 1]);
      }
      InsertSorted(xs[0], sorted);
      InsertKeeps(xs[0], sorted);
      assert xs == [xs[0]] + rest;
    }
  }

  // ----- a scrape among recordings -----

  lemma {:induction false} KeyStays(ss: seq<State>, es: seq<Event>, sid: nat, j: nat, k: nat)
    requires Run(Init, Next, ss, es) && j <= k < |ss| && sid in ss[j].store
    ensures sid in ss[k].store && ss[k].store[sid].key == ss[j].store[sid].key
    decreases k
  {
    if j < k {
      KeyStays(ss, es, sid, j, k - 1);
      assert Next(ss[k - 1], es[k - 1], ss[k - 1 + 1]);
    }
  }

  /** A walk over the registry: every key once, in any order. */
  ghost predicate Walk(registry: map<Key, nat>, keys: seq<Key>) {
    Distinct(keys) && forall k :: k in keys <==> k in registry
  }

  /** The snapshot a finished scrape of one series makes, with the labels the series was created with. */
  ghost predicate SnapshotOf(snap: Snapshot, s: State, x: nat, sid: nat) {
    && x in s.scrapes && sid in s.store && s.scrapes[x].sid == sid && |s.scrapes[x].cumulative| == SLOTS
    && snap.method_ == s.store[sid].key.method_ && snap.code == Itoa(s.store[sid].key.code)
    && snap.buckets == s.scrapes[x].cumulative && snap.sum == s.scrapes[x].sum && s.scrapes[x].count == Some(snap.count)
  }

  /** collect against any concurrent recording: the registry is walked at instant k, the series found there are read
      one at a time until instant m, and the snapshots sorted. The result is strictly sorted by code and then method
      with exactly one entry for every key registered at k and none for anything else; in each entry the buckets
      never decrease and the last is at least the count. */
  lemma CollectAnyInterleaving(ss: seq<State>, es: seq<Event>, k: nat, m: nat, keys: seq<Key>, xs: seq<nat>,
                               raw: seq<Snapshot>)
    requires Run(Init, Next, ss, es) && k <= m < |ss| && Walk(ss[k].registry, keys)
    requires |raw| == |xs| == |keys|
    requires forall i | 0 <= i < |keys| :: SnapshotOf(raw[i], ss[m], xs[i], ss[k].registry[keys[i]])
    ensures StrictlySorted(Sort(raw)) && InLabelOrder(Sort(raw)) && |Sort(raw)| == |ss[k].registry|
    ensures forall key | key in ss[k].registry :: Listed(Sort(raw), key)
    ensures forall i | 0 <= i < |Sort(raw)| :: FromRegistry(Sort(raw)[i], ss[k].registry) && Coherent(Sort(raw)[i])
  {
    forall i | 0 <= i < |keys| ensures Labelled(raw[i], keys[i]) && Coherent(raw[i]) {
      WalkLabels(ss, es, k, m, keys[i], xs[i], raw[i]);
    }
    SortedWalk(ss[k].registry, keys, raw);
  }

  ghost predicate Listed(out: seq<Snapshot>, key: Key) { exists i :: 0 <= i < |out| && Labelled(out[i], key) }

  ghost predicate FromRegistry(snap: Snapshot, registry: map<Key, nat>) {
    exists key :: key in registry && Labelled(snap, key)
  }

  ghost predicate Coherent(snap: Snapshot) {
    |snap.buckets| == SLOTS && MetricsSafety.Nondecreasing(snap.buckets) && snap.count <= Last(snap.buckets)
  }

  lemma SortedWalk(registry: map<Key, nat>, keys: seq<Key>, raw: seq<Snapshot>)
    requires Walk(registry, keys) && |raw| == |keys|
    requires forall i | 0 <= i < |keys| :: Labelled(raw[i], keys[i]) && Coherent(raw[i])
    ensures StrictlySorted(Sort(raw)) && InLabelOrder(Sort(raw)) && |Sort(raw)| == |registry|
    ensures forall key | key in registry :: Listed(Sort(raw), key)
    ensures forall i | 0 <= i < |Sort(raw)| :: FromRegistry(Sort(raw)[i], registry) && Coherent(Sort(raw)[i])
  {
    var out := Sort(raw);
    LabelsDistinct(raw, keys);
    SortCorrect(raw);
    SortedByLabels(out);
    DistinctSize(keys, registry.Keys);
    assert |out| == |multiset(out)| && |raw| == |multiset(raw)|;
    PermutedWalk(registry, keys, raw, out);
  }

  lemma PermutedWalk(registry: map<Key, nat>, keys: seq<Key>, raw: seq<Snapshot>, out: seq<Snapshot>)
    requires Walk(registry, keys) && |raw| == |keys| && forall y :: y in out <==> y in raw
    requires forall i | 0 <= i < |keys| :: Labelled(raw[i], keys[i]) && Coherent(raw[i])
    ensures forall key | key in registry :: Listed(out, key)
    ensures forall i | 0 <= i < |out| :: FromRegistry(out[i], registry) && Coherent(out[i])
  {
    forall key | key in registry ensures Listed(out, key) {
      var i :| 0 <= i < |keys| && keys[i] == key;
      assert raw[i] in out;
      var j :| 0 <= j < |out| && out[j] == raw[i];
    }
    forall j | 0 <= j < |out| ensures FromRegistry(out[j], registry) && Coherent(out[j]) {
      assert out[j] in raw;
      var i :| 0 <= i < |raw| && raw[i] == out[j];
      assert keys[i] in registry && Labelled(out[j], keys[i]);
    }
  }

  lemma WalkLabels(ss: seq<State>, es: seq<Event>, k: nat, m: nat, key: Key, x: nat, snap: Snapshot)
    requires Run(Init, Next, ss, es) && k <= m < |ss| && key in ss[k].registry
    requires SnapshotOf(snap, ss[m], x, ss[k].registry[key])
    ensures Labelled(snap, key) && Coherent(snap)
  {
    MetricsSafety.RunInv(ss, es, k);
    KeyStays(ss, es, ss[k].registry[key], k, m);
    MetricsSafety.ScrapeConsistency(ss, es, m, x);
  }

  lemma LabelsDistinct(raw: seq<Snapshot>, keys: seq<Key>)
    requires |raw| == |keys| && Distinct(keys) && forall i | 0 <= i < |keys| :: Labelled(raw[i], keys[i])
    ensures DistinctLabels(raw)
  {
    forall i, j | 0 <= i < j < |raw| ensures !SameLabels(raw[i], raw[j]) {
      if SameLabels(raw[i], raw[j]) { ItoaInjective(keys[i].code, keys[j].code); }
    }
  }

  // ----- the object -----

  /** One series, recorded into by nobody else at the moment. */
  datatype Data = Data(buckets: seq<nat>, sum: real, count: nat)

  function Empty(): Data { Data(seq(SLOTS, _ => 0), 0.0, 0) }

  function Recorded(add: (real, real) -> real, d: Data, seconds: real): Data
    requires |d.buckets| == SLOTS
  {
    SlotInRange(seconds);
    Data(Bump(d.buckets, Slot(seconds)), add(d.sum, seconds), d.count + 1)
  }

  /** What collect reports of a series: the buckets cumulated. */
  ghost predicate Shows(snap: Snapshot, key: Key, d: Data) {
    && Labelled(snap, key) && snap.sum == d.sum && snap.count == d.count
    && |snap.buckets| == |d.buckets|
    && forall i | 0 <= i < |d.buckets| :: snap.buckets[i] == Total(d.buckets[..i + 1])
  }

  method Cumulate(buckets: seq<nat>) returns (out: seq<nat>)
    ensures |out| == |buckets|
    ensures forall i | 0 <= i < |buckets| :: out[i] == Total(buckets[..i + 1])
  {
    out := [];
    var running := 0;
    for i := 0 to |buckets|
      invariant |out| == i && running == Total(buckets[..i])
      invariant forall j | 0 <= j < i :: out[j] == Total(buckets[..j + 1])
    {
      running := running + buckets[i];
      assert Front(buckets[..i + 1]) == buckets[..i];
      out := out + [running];
    }
  }

  /** The i-th slot is for observations above the bound before it and not above its own; the last has no bound. */
  predicate InRange(x: real, i: nat)
    requires i < SLOTS
  {
    (i == 0 || BOUNDS[i - 1] < x) && (i == |BOUNDS| || x <= BOUNDS[i])
  }

  lemma RangeOfSlot(x: real, i: nat)
    requires i < SLOTS
    ensures InRange(x, i) <==> Slot(x) == i
  {
    if i < |BOUNDS| { SlotMeaning(x, i); } else { SlotInRange(x); }
    if i > 0 { SlotMeaning(x, i - 1); }
  }

  class Recorder {
    const add: (real, real) -> real
    var series: map<Key, Data>

    ghost predicate Valid()
      reads this
    {
      forall k | k in series :: |series[k].buckets| == SLOTS
    }

    constructor (add: (real, real) -> real)
      ensures Valid() && series == map[] && this.add == add
    {
      this.add := add;
      series := map[];
    }

    /** newSeries: the series of the key, created only if it is not there. */
    method NewSeries(key: Key) returns (d: Data)
      requires Valid()
      modifies this
      ensures Valid() && key in series && d == series[key]
      ensures series == if key in old(series) then old(series) else old(series)[key := Empty()]
    {
      if key in series {
        return series[key];
      }
      d := Empty();
      series := series[key := d];
    }

    /** observe, with no other recording overlapping it: one more in the slot of the observation, in the count and, added
        on, in the sum; no other series changes. */
    method Observe(method_: string, code: int, seconds: real)
      requires Valid()
      modifies this
      ensures Valid()
      ensures var key := Key(method_, code);
              var d := if key in old(series) then old(series)[key] else Empty();
              && |d.buckets| == SLOTS && series == old(series)[key := Recorded(add, d, seconds)]
              && var r := series[key];
                 && r.count == d.count + 1 && r.sum == add(d.sum, seconds) && |r.buckets| == SLOTS
                 && forall i | 0 <= i < SLOTS :: r.buckets[i] == d.buckets[i] + (if InRange(seconds, i) then 1 else 0)
    {
      var key := Key(method_, code);
      var d: Data;
      if key in series {
        d := series[key];
      } else {
        d := NewSeries(key);
      }
      var slot := BucketIndex(seconds);
      SlotInRange(seconds);
      forall i | 0 <= i < SLOTS ensures InRange(seconds, i) <==> i == slot { RangeOfSlot(seconds, i); }
      d := d.(buckets := d.buckets[slot := d.buckets[slot] + 1]);
      d := d.(sum := add(d.sum, seconds));
      d := d.(count := d.count + 1);
      series := series[key := d];
    }

    /** collect, with no recording overlapping it: strictly sorted by code and then method, with exactly one
        snapshot for every series and none for anything else. */
    method Collect() returns (out: seq<Snapshot>)
      requires Valid()
      ensures StrictlySorted(out) && InLabelOrder(out)
      ensures |out| == |series|
      ensures forall k | k in series :: Reported(out, k, series[k])
      ensures forall i | 0 <= i < |out| :: Sourced(out[i], series)
    {
      var live := series.Keys;
      var raw: seq<Snapshot> := [];
      ghost var keys: seq<Key> := [];
      while live != {}
        invariant live <= series.Keys
        invariant Rows(raw, keys, series) && |raw| + |live| == |series|
        invariant forall k :: k in keys <==> k in series && k !in live
        decreases |live|
      {
        var k :| k in live;
        var snap := Snap(k, series[k]);
        RowsMore(raw, keys, series, snap, k);
        raw, keys := raw + [snap], keys + [k];
        live := live - {k};
      }
      RowsDistinct(raw, keys, series);
      SortCorrect(raw);
      out := Sort(raw);
      SortedByLabels(out);
      forall k | k in series ensures Reported(out, k, series[k]) { RowReported(raw, keys, series, out, k); }
      forall i | 0 <= i < |out| ensures Sourced(out[i], series) { RowSourced(raw, keys, series, out, i); }
      assert |out| == |multiset(out)| && |raw| == |multiset(raw)|;
    }
  }

  method Snap(key: Key, d: Data) returns (snap: Snapshot)
    ensures Shows(snap, key, d)
  {
    var cumulative := Cumulate(d.buckets);
    snap := Snapshot(key.method_, Itoa(key.code), cumulative, d.sum, d.count);
  }

  ghost predicate Reported(out: seq<Snapshot>, key: Key, d: Data) { exists snap :: snap in out && Shows(snap, key, d) }

  ghost predicate Sourced(snap: Snapshot, series: map<Key, Data>) {
    exists k :: k in series && Shows(snap, k, series[k])
  }

  /** `raw` holds one snapshot per key of `keys`, position by position. */
  ghost predicate Rows(raw: seq<Snapshot>, keys: seq<Key>, series: map<Key, Data>) {
    && |raw| == |keys| && Distinct(keys)
    && forall i | 0 <= i < |keys| :: keys[i] in series && Shows(raw[i], keys[i], series[keys[i]])
  }

  lemma RowsMore(raw: seq<Snapshot>, keys: seq<Key>, series: map<Key, Data>, snap: Snapshot, k: Key)
    requires Rows(raw, keys, series) && k in series && k !in keys && Shows(snap, k, series[k])
    ensures Rows(raw + [snap], keys + [k], series)
  {
  }

  lemma RowsDistinct(raw: seq<Snapshot>, keys: seq<Key>, series: map<Key, Data>)
    requires Rows(raw, keys, series)
    ensures DistinctLabels(raw)
  {
    LabelsDistinct(raw, keys);
  }

  lemma RowReported(raw: seq<Snapshot>, keys: seq<Key>, series: map<Key, Data>, out: seq<Snapshot>, k: Key)
    requires Rows(raw, keys, series) && k in series && k in keys && forall y :: y in out <==> y in raw
    ensures Reported(out, k, series[k])
  {
    var j :| 0 <= j < |keys| && keys[j] == k;
    assert raw[j] in out && Shows(raw[j], k, series[k]);
  }

  lemma RowSourced(raw: seq<Snapshot>, keys: seq<Key>, series: map<Key, Data>, out: seq<Snapshot>, i: nat)
    requires Rows(raw, keys, series) && i < |out| && forall y :: y in out <==> y in raw
    ensures Sourced(out[i], series)
  {
    assert out[i] in raw;
    var j :| 0 <= j < |raw| && raw[j] == out[i];
    assert Shows(out[i], keys[j], series[keys[j]]);
  }
}
