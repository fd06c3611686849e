/** pkg/fanout and pkg/fanin: forwarders that compete for one input, forwarders that share one output, and the
    two connected. A channel is represented by everything ever sent on it; a full or unready channel is a
    step that does not happen yet. The outputs given to Split are assumed distinct. */
module Pipelines {
  import opened Collections
  import opened Runs

  // ----- sequences of values tagged with the forwarder that carried them -----

  ghost function Values<T>(xs: seq<(nat, T)>): seq<T> {
    if xs == [] then [] else Values(Front(xs)) + [Last(xs).1]
  }

  /** The values forwarder i carried, in order. */
  ghost function Part<T>(xs: seq<(nat, T)>, i: nat): seq<T> {
    if xs == [] then [] else Part(Front(xs), i) + (if Last(xs).0 == i then [Last(xs).1] else [])
  }

  ghost predicate TagsBelow<T>(xs: seq<(nat, T)>, n: nat) { forall k | 0 <= k < |xs| :: xs[k].0 < n }

  lemma Carried<T>(xs: seq<(nat, T)>, i: nat, v: T, j: nat)
    ensures Values(xs + [(i, v)]) == Values(xs) + [v]
    ensures Part(xs + [(i, v)], j) == if i == j then Part(xs, j) + [v] else Part(xs, j)
  {
    assert Front(xs + [(i, v)]) == xs;
  }

  /** Taking the next value of an input and logging it. */
  lemma CarriedNext<T>(xs: seq<(nat, T)>, input: seq<T>, taken: nat, i: nat)
    requires taken < |input| && Values(xs) == input[..taken]
    ensures Values(xs + [(i, input[taken])]) == input[..taken + 1]
  {
    Carried(xs, i, input[taken], i);
  }

  /** What one forwarder carried is a subsequence of the whole. */
  lemma {:induction false} PartIsSubsequence<T(!new)>(xs: seq<(nat, T)>, i: nat)
    ensures Subsequence(Part(xs, i), Values(xs))
  {
    if xs != [] {
      PartIsSubsequence(Front(xs), i);
      if Last(xs).0 == i {
        SubsequenceAppend(Part(Front(xs), i), Values(Front(xs)), Last(xs).1);
      } else {
        SubsequenceWiden(Part(Front(xs), i), Values(Front(xs)), Last(xs).1);
        assert Part(xs, i) == Part(Front(xs), i);
      }
    }
  }

  ghost function Sum<T>(ms: seq<multiset<T>>): multiset<T> {
    if ms == [] then multiset{} else Sum(Front(ms)) + Last(ms)
  }

  lemma {:induction false} SumGrows<T>(ms: seq<multiset<T>>, i: nat, x: multiset<T>)
    requires i < |ms|
    ensures Sum(ms[i := ms[i] + x]) == Sum(ms) + x
  {
    var ns := ms[i := ms[i] + x];
    var a, b := Sum(Front(ms)), Last(ms);
    assert Sum(ms) == a + b;
    if i == |ms| - 1 {
      assert Front(ns) == Front(ms) && Last(ns) == b + x;
      assert Sum(ns) == a + (b + x);
    } else {
      SumGrows(Front(ms), i, x);
      assert Front(ns) == Front(ms)[i := ms[i] + x] && Last(ns) == b;
      assert Sum(ns) == (a + x) + b;
    }
  }

  lemma {:induction false} SumOfNothing<T>(ms: seq<multiset<T>>)
    requires forall i | 0 <= i < |ms| :: ms[i] == multiset{}
    ensures Sum(ms) == multiset{}
  {
    if ms != [] { SumOfNothing(Front(ms)); }
  }

  ghost function PartList<T>(xs: seq<(nat, T)>, n: nat): seq<multiset<T>> { seq(n, (i: nat) => multiset(Part(xs, i))) }

  /** Everything the first n forwarders carried. */
  ghost function Parts<T>(xs: seq<(nat, T)>, n: nat): multiset<T> { Sum(PartList(xs, n)) }

  /** Every value was carried by exactly one forwarder. */
  lemma {:induction false} PartsAreValues<T>(xs: seq<(nat, T)>, n: nat)
    requires TagsBelow(xs, n)
    ensures Parts(xs, n) == multiset(Values(xs))
  {
    if xs == [] {
      SumOfNothing(PartList(xs, n));
    } else {
      var (i, v) := Last(xs);
      PartsAreValues(Front(xs), n);
      assert xs == Front(xs) + [(i, v)];
      PartListGrows(Front(xs), i, v, n);
      SumGrows(PartList(Front(xs), n), i, multiset{v});
    }
  }

  lemma PartListGrows<T>(xs: seq<(nat, T)>, i: nat, v: T, n: nat)
    requires i < n
    ensures var ms := PartList(xs, n); PartList(xs + [(i, v)], n) == ms[i := ms[i] + multiset{v}]
  {
    var ms, ns := PartList(xs, n), PartList(xs + [(i, v)], n);
    forall j: nat | j < n ensures ns[j] == if j == i then ms[j] + multiset{v} else ms[j] {
      Carried(xs, i, v, j);
    }
  }

  lemma SameParts<T>(xs: seq<(nat, T)>, ys: seq<(nat, T)>, n: nat)
    requires forall i: nat | i < n :: Part(xs, i) == Part(ys, i)
    ensures Parts(xs, n) == Parts(ys, n)
  {
    assert PartList(xs, n) == PartList(ys, n);
  }

  // ----- forwarders -----

  datatype Forwarder<T> = Receiving | Holding(v: T) | Exited

  ghost function Hand<T>(f: Forwarder<T>): seq<T> { if f.Holding? then [f.v] else [] }

  // ----- Split -----

  /** `routed` logs every value taken from the input with the forwarder that took it; `lost` what each forwarder
      dropped on cancellation; `closes` how often each output was closed. */
  datatype Split<T> = Split(input: seq<T>, taken: nat, inClosed: bool, cancelled: bool, fwd: seq<Forwarder<T>>,
                            outs: seq<seq<T>>, closes: seq<nat>, lost: seq<seq<T>>, routed: seq<(nat, T)>)

  datatype Event<T> =
    | Produce(i: nat, v: T)
    | CloseInput(i: nat)
    | CancelCtx
    | Take(i: nat)
    | Deliver(i: nat)
    | ExitDrained(i: nat)
    | ExitCancelled(i: nat)
    | CloseOut

  ghost predicate SplitInit<T>(s: Split<T>) {
    && s.input == [] && s.taken == 0 && !s.inClosed && !s.cancelled && s.routed == []
    && |s.outs| == |s.closes| == |s.lost| == |s.fwd|
    && forall i | 0 <= i < |s.fwd| :: s.fwd[i] == Receiving && s.outs[i] == [] && s.closes[i] == 0 && s.lost[i] == []
  }

  ghost predicate SplitShape<T>(s: Split<T>) { |s.outs| == |s.closes| == |s.lost| == |s.fwd| }

  ghost predicate SplitNext<T>(s: Split<T>, e: Event<T>, s': Split<T>) {
    SplitShape(s) &&
    match e
    case Produce(_, v) => !s.inClosed && s' == s.(input := s.input + [v])
    case CloseInput(_) => s' == s.(inClosed := true)
    case CancelCtx => s' == s.(cancelled := true)
    case Take(i) =>
      && i < |s.fwd| && s.fwd[i].Receiving? && s.taken < |s.input|
      && var v := s.input[s.taken];
         s' == s.(taken := s.taken + 1, fwd := s.fwd[i := Holding(v)], routed := s.routed + [(i, v)])
    case Deliver(i) =>
      && i < |s.fwd| && s.fwd[i].Holding?
      && s' == s.(fwd := s.fwd[i := Receiving], outs := s.outs[i := s.outs[i] + [s.fwd[i].v]])
    case ExitDrained(i) =>
      && i < |s.fwd| && s.fwd[i].Receiving? && s.inClosed && s.taken == |s.input|
      && s' == s.(fwd := s.fwd[i := Exited], closes := s.closes[i := s.closes[i] + 1])
    case ExitCancelled(i) =>
      && i < |s.fwd| && !s.fwd[i].Exited? && s.cancelled
      && s' == s.(fwd := s.fwd[i := Exited], closes := s.closes[i := s.closes[i] + 1],
                  lost := s.lost[i := s.lost[i] + Hand(s.fwd[i])])
    case CloseOut => false
  }

  ghost predicate SplitOk<T>(s: Split<T>, i: nat)
    requires SplitShape(s) && i < |s.fwd|
  {
    && Part(s.routed, i) == s.outs[i] + Hand(s.fwd[i]) + s.lost[i]
    && |s.lost[i]| <= 1
    && (s.lost[i] != [] ==> s.fwd[i].Exited? && s.cancelled)
    && s.closes[i] == (if s.fwd[i].Exited? then 1 else 0)
    && (s.fwd[i].Exited? && !s.cancelled ==> s.inClosed && s.taken == |s.input|)
  }

  ghost predicate SplitInv<T>(s: Split<T>) {
    && SplitShape(s)
    && s.taken <= |s.input|
    && TagsBelow(s.routed, |s.fwd|)
    && Values(s.routed) == s.input[..s.taken]
    && forall i | 0 <= i < |s.fwd| :: SplitOk(s, i)
  }

  /** The steps of others leave a forwarder's part alone. */
  lemma SplitOtherStep<T>(s: Split<T>, e: Event<T>, s': Split<T>, i: nat)
    requires SplitNext(s, e, s') && s.taken <= |s.input| && i < |s.fwd| && SplitOk(s, i)
    requires !((e.Take? || e.Deliver? || e.ExitDrained? || e.ExitCancelled?) && e.i == i)
    ensures SplitOk(s', i)
  {
    if e.Take? { Carried(s.routed, e.i, s.input[s.taken], i); }
    assert Part(s'.routed, i) == Part(s.routed, i);
  }

  /** A forwarder's own step: it has lost nothing yet. */
  lemma SplitOwnStep<T>(s: Split<T>, e: Event<T>, s': Split<T>, i: nat)
    requires SplitNext(s, e, s') && s.taken <= |s.input| && i < |s.fwd| && SplitOk(s, i)
    requires (e.Take? || e.Deliver? || e.ExitDrained? || e.ExitCancelled?) && e.i == i
    ensures SplitOk(s', i)
  {
    var out := s.outs[i];
    assert s.lost[i] == [];
    assert Part(s.routed, i) == out + Hand(s.fwd[i]);
    if e.Take? {
      Carried(s.routed, i, s.input[s.taken], i);
      assert Part(s'.routed, i) == out + [s.input[s.taken]];
    } else if e.ExitCancelled? {
      assert out + [] + Hand(s.fwd[i]) == out + Hand(s.fwd[i]);
    }
  }

  lemma SplitStep<T>(s: Split<T>, e: Event<T>, s': Split<T>)
    requires SplitInv(s) && SplitNext(s, e, s')
    ensures SplitInv(s')
  {
    SplitRouted(s, e, s');
    forall i | 0 <= i < |s'.fwd| ensures SplitOk(s', i) {
      assert SplitOk(s, i);
      if (e.Take? || e.Deliver? || e.ExitDrained? || e.ExitCancelled?) && e.i == i {
        SplitOwnStep(s, e, s', i);
      } else {
        SplitOtherStep(s, e, s', i);
      }
    }
  }

  /** What was taken is what was routed, and to a forwarder. */
  lemma SplitRouted<T>(s: Split<T>, e: Event<T>, s': Split<T>)
    requires SplitShape(s) && SplitNext(s, e, s') && s.taken <= |s.input|
    requires TagsBelow(s.routed, |s.fwd|) && Values(s.routed) == s.input[..s.taken]
    ensures SplitShape(s') && |s'.fwd| == |s.fwd| && s'.taken <= |s'.input|
    ensures TagsBelow(s'.routed, |s'.fwd|) && Values(s'.routed) == s'.input[..s'.taken]
  {
    if e.Take? {
      CarriedNext(s.routed, s.input, s.taken, e.i);
    } else if e.Produce? {
      assert s'.input[..s.taken] == s.input[..s.taken];
    }
  }

  lemma SplitRun<T(!new)>(ss: seq<Split<T>>, es: seq<Event<T>>, k: nat)
    requires Run(SplitInit, SplitNext, ss, es) && k < |ss|
    ensures SplitInv(ss[k])
  {
    forall s: Split<T>, e, s' | SplitInv(s) && SplitNext(s, e, s') ensures SplitInv(s') { SplitStep(s, e, s'); }
    Invariance(SplitInit, SplitNext, SplitInv, ss, es, k);
  }

  /** Split in every run: each value taken from the input is in exactly one forwarder's part; that part is what
      went to its output, then what it holds, then what it dropped, at most one value and only after
      cancellation; every output is a subsequence of the input and is closed exactly when its forwarder exits. */
  lemma SplitDelivers<T(!new)>(ss: seq<Split<T>>, es: seq<Event<T>>, k: nat, i: nat)
    requires Run(SplitInit, SplitNext, ss, es) && k < |ss| && i < |ss[k].fwd|
    ensures var s := ss[k];
            && s.taken <= |s.input| && |s.outs| == |s.lost| == |s.closes| == |s.fwd|
            && Parts(s.routed, |s.fwd|) == multiset(s.input[..s.taken])
            && Part(s.routed, i) == s.outs[i] + Hand(s.fwd[i]) + s.lost[i]
            && Subsequence(Part(s.routed, i), s.input[..s.taken])
            && |s.lost[i]| <= 1 && (s.lost[i] != [] ==> s.cancelled)
            && s.closes[i] == if s.fwd[i].Exited? then 1 else 0
  {
    SplitRun(ss, es, k);
    assert SplitOk(ss[k], i);
    PartsAreValues(ss[k].routed, |ss[k].fwd|);
    PartIsSubsequence(ss[k].routed, i);
  }

  // ----- Merge -----

  /** `out` logs what was sent on the output with the forwarder that sent it; `wg` is the wait group; `closes`
      counts the closes of the output; `fault` is raised by a send after a close. */
  datatype Merge<T> = Merge(ins: seq<seq<T>>, inClosed: seq<bool>, taken: seq<nat>, cancelled: bool,
                            fwd: seq<Forwarder<T>>, lost: seq<seq<T>>, out: seq<(nat, T)>, wg: int, closes: nat, fault: bool)

  ghost predicate MergeShape<T>(m: Merge<T>) { |m.ins| == |m.inClosed| == |m.taken| == |m.lost| == |m.fwd| }

  /** With no inputs the output is closed at once. */
  ghost predicate MergeInit<T>(m: Merge<T>) {
    && MergeShape(m)
    && !m.cancelled && m.out == [] && m.wg == |m.fwd| && !m.fault
    && m.closes == (if |m.fwd| == 0 then 1 else 0)
    && forall i | 0 <= i < |m.fwd| ::
         m.fwd[i] == Receiving && m.ins[i] == [] && !m.inClosed[i] && m.taken[i] == 0 && m.lost[i] == []
  }

  ghost predicate MergeNext<T>(m: Merge<T>, e: Event<T>, m': Merge<T>) {
    MergeShape(m) &&
    match e
    case Produce(i, v) => i < |m.ins| && !m.inClosed[i] && m' == m.(ins := m.ins[i := m.ins[i] + [v]])
    case CloseInput(i) => i < |m.ins| && m' == m.(inClosed := m.inClosed[i := true])
    case CancelCtx => m' == m.(cancelled := true)
    case Take(i) =>
      && i < |m.fwd| && m.fwd[i].Receiving? && m.taken[i] < |m.ins[i]|
      && m' == m.(taken := m.taken[i := m.taken[i] + 1], fwd := m.fwd[i := Holding(m.ins[i][m.taken[i]])])
    case Deliver(i) =>
      && i < |m.fwd| && m.fwd[i].Holding?
      && m' == m.(fwd := m.fwd[i := Receiving], out := m.out + [(i, m.fwd[i].v)], fault := m.fault || m.closes > 0)
    case ExitDrained(i) =>
      && i < |m.fwd| && m.fwd[i].Receiving? && m.inClosed[i] && m.taken[i] == |m.ins[i]|
      && m' == m.(fwd := m.fwd[i := Exited], wg := m.wg - 1)
    case ExitCancelled(i) =>
      && i < |m.fwd| && !m.fwd[i].Exited? && m.cancelled
      && m' == m.(fwd := m.fwd[i := Exited], wg := m.wg - 1, lost := m.lost[i := m.lost[i] + Hand(m.fwd[i])])
    case CloseOut => |m.fwd| > 0 && m.wg == 0 && m.closes == 0 && m' == m.(closes := m.closes + 1)
  }

  ghost function Running<T>(fwd: seq<Forwarder<T>>): set<nat> { set i: nat | i < |fwd| && !fwd[i].Exited? }

  ghost predicate MergeOk<T>(m: Merge<T>, i: nat)
    requires MergeShape(m) && i < |m.fwd|
  {
    && m.taken[i] <= |m.ins[i]|
    && Part(m.out, i) + Hand(m.fwd[i]) + m.lost[i] == m.ins[i][..m.taken[i]]
    && |m.lost[i]| <= 1
    && (m.lost[i] != [] ==> m.fwd[i].Exited? && m.cancelled)
    && (m.fwd[i].Exited? && !m.cancelled ==> m.inClosed[i] && m.taken[i] == |m.ins[i]|)
  }

  ghost predicate MergeInv<T>(m: Merge<T>) {
    && MergeShape(m)
    && TagsBelow(m.out, |m.fwd|)
    && m.wg == |Running(m.fwd)|
    && m.closes <= 1 && !m.fault
    && (m.closes == 1 ==> forall i | 0 <= i < |m.fwd| :: m.fwd[i].Exited?)
    && forall i | 0 <= i < |m.fwd| :: MergeOk(m, i)
  }

  lemma MergeInitInv<T>(m: Merge<T>)
    requires MergeInit(m)
    ensures MergeInv(m)
  {
    AllRunning(m.fwd);
  }

  lemma {:induction false} AllRunning<T>(fwd: seq<Forwarder<T>>)
    requires forall i | 0 <= i < |fwd| :: !fwd[i].Exited?
    ensures |Running(fwd)| == |fwd|
  {
    if fwd == [] {
      assert Running(fwd) == {};
    } else {
      AllRunning(Front(fwd));
      assert Running(fwd) == Running(Front(fwd)) + {|fwd| - 1};
    }
  }

  lemma RunningUpdate<T>(fwd: seq<Forwarder<T>>, i: nat, f: Forwarder<T>)
    requires i < |fwd| && !fwd[i].Exited?
    ensures |Running(fwd[i := f])| == |Running(fwd)| - (if f.Exited? then 1 else 0)
  {
    CardFlip(Running(fwd), Running(fwd[i := f]), i);
  }

  /** A forwarder's own step: it has lost nothing yet. */
  lemma MergeOwnStep<T>(m: Merge<T>, e: Event<T>, m': Merge<T>, i: nat)
    requires MergeShape(m) && MergeNext(m, e, m') && i < |m.fwd| && MergeOk(m, i)
    requires (e.Take? || e.Deliver? || e.ExitDrained? || e.ExitCancelled?) && e.i == i
    ensures MergeOk(m', i)
  {
    var sent, n := Part(m.out, i), m.taken[i];
    assert m.lost[i] == [];
    assert sent + Hand(m.fwd[i]) == m.ins[i][..n];
    if e.Take? {
      assert m.ins[i][..n + 1] == m.ins[i][..n] + [m.ins[i][n]];
      assert Part(m'.out, i) + Hand(m'.fwd[i]) == m'.ins[i][..n + 1];
    } else if e.Deliver? {
      Carried(m.out, i, m.fwd[i].v, i);
    } else if e.ExitCancelled? {
      assert sent + [] + Hand(m.fwd[i]) == sent + Hand(m.fwd[i]);
    }
  }

  /** The steps of others leave what a forwarder took and sent alone. */
  lemma MergeOtherStep<T>(m: Merge<T>, e: Event<T>, m': Merge<T>, i: nat)
    requires MergeShape(m) && MergeNext(m, e, m') && i < |m.fwd| && MergeOk(m, i)
    requires !((e.Take? || e.Deliver? || e.ExitDrained? || e.ExitCancelled?) && e.i == i)
    ensures MergeOk(m', i)
  {
    if e.Deliver? { Carried(m.out, e.i, m.fwd[e.i].v, i); }
    assert Part(m'.out, i) == Part(m.out, i);
    assert m'.ins[i][..m.taken[i]] == m.ins[i][..m.taken[i]];
  }

  lemma MergeStep<T>(m: Merge<T>, e: Event<T>, m': Merge<T>)
    requires MergeInv(m) && MergeNext(m, e, m')
    ensures MergeInv(m')
  {
    if e.Take? || e.Deliver? || e.ExitDrained? || e.ExitCancelled? {
      RunningUpdate(m.fwd, e.i, m'.fwd[e.i]);
    }
    if e.CloseOut? {
      forall i | 0 <= i < |m.fwd| ensures m.fwd[i].Exited? { assert i !in Running(m.fwd); }
    }
    forall i | 0 <= i < |m'.fwd| ensures MergeOk(m', i) {
      assert MergeOk(m, i);
      if (e.Take? || e.Deliver? || e.ExitDrained? || e.ExitCancelled?) && e.i == i {
        MergeOwnStep(m, e, m', i);
      } else {
        MergeOtherStep(m, e, m', i);
      }
    }
  }

  lemma MergeRun<T(!new)>(ms: seq<Merge<T>>, es: seq<Event<T>>, k: nat)
    requires Run(MergeInit, MergeNext, ms, es) && k < |ms|
    ensures MergeInv(ms[k])
  {
    forall m: Merge<T> | MergeInit(m) ensures MergeInv(m) { MergeInitInv(m); }
    forall m: Merge<T>, e, m' | MergeInv(m) && MergeNext(m, e, m') ensures MergeInv(m') { MergeStep(m, e, m'); }
    Invariance(MergeInit, MergeNext, MergeInv, ms, es, k);
  }

  /** Merge in every run: the output is an interleaving of what was taken from each input, in order, short of what
      a forwarder holds or, after cancellation, dropped, at most one value each; the output is closed at most once,
      only when every forwarder has exited, and nothing is sent on it afterwards. */
  lemma MergeInterleaves<T(!new)>(ms: seq<Merge<T>>, es: seq<Event<T>>, k: nat)
    requires Run(MergeInit, MergeNext, ms, es) && k < |ms|
    ensures var m := ms[k];
            && MergeShape(m) && TagsBelow(m.out, |m.fwd|)
            && (forall i | 0 <= i < |m.fwd| ::
                  && m.taken[i] <= |m.ins[i]|
                  && Part(m.out, i) + Hand(m.fwd[i]) + m.lost[i] == m.ins[i][..m.taken[i]]
                  && |m.lost[i]| <= 1 && (m.lost[i] != [] ==> m.cancelled))
            && m.closes <= 1 && !m.fault
            && (m.closes == 1 ==> forall i | 0 <= i < |m.fwd| :: m.fwd[i].Exited?)
  {
    MergeRun(ms, es, k);
    var m := ms[k];
    forall i | 0 <= i < |m.fwd|
      ensures && m.taken[i] <= |m.ins[i]|
              && Part(m.out, i) + Hand(m.fwd[i]) + m.lost[i] == m.ins[i][..m.taken[i]]
              && |m.lost[i]| <= 1 && (m.lost[i] != [] ==> m.cancelled)
    {
      assert MergeOk(m, i);
    }
  }

  // ----- Split feeding Merge -----

  /** Split's i-th output is Merge's i-th input. */
  datatype Pipe<T> = Pipe(split: Split<T>, merge: Merge<T>)

  datatype PipeEvent<T> = Up(e: Event<T>) | Down(e: Event<T>)

  /** Merge as it sees the outputs of a Split. */
  ghost function Fed<T>(m: Merge<T>, s: Split<T>): Merge<T> {
    m.(ins := s.outs, inClosed := seq(|s.fwd|, i requires 0 <= i < |s.fwd| => s.fwd[i].Exited?))
  }

  ghost predicate PipeInit<T>(p: Pipe<T>) {
    SplitInit(p.split) && MergeInit(p.merge) && |p.split.fwd| == |p.merge.fwd|
  }

  ghost predicate PipeNext<T>(p: Pipe<T>, e: PipeEvent<T>, p': Pipe<T>) {
    match e
    case Up(x) => SplitNext(p.split, x, p'.split) && p'.merge == Fed(p.merge, p'.split)
    case Down(x) => !x.Produce? && !x.CloseInput? && MergeNext(p.merge, x, p'.merge) && p'.split == p.split
  }

  ghost predicate PipeInv<T>(p: Pipe<T>) {
    && SplitInv(p.split) && MergeInv(p.merge)
    && |p.split.fwd| == |p.merge.fwd|
    && p.merge.ins == p.split.outs
    && forall i | 0 <= i < |p.split.fwd| :: p.merge.inClosed[i] == p.split.fwd[i].Exited?
  }

  /** Feeding only extends inputs that are open. */
  lemma FedInv<T>(p: Pipe<T>, x: Event<T>, s': Split<T>)
    requires PipeInv(p) && SplitNext(p.split, x, s') && SplitInv(s')
    ensures MergeInv(Fed(p.merge, s'))
  {
    var m, m' := p.merge, Fed(p.merge, s');
    forall i | 0 <= i < |m'.fwd| ensures MergeOk(m', i) {
      assert MergeOk(m, i);
      assert m.ins[i] <= m'.ins[i];
      assert m'.ins[i][..m.taken[i]] == m.ins[i][..m.taken[i]];
      if p.split.fwd[i].Exited? { assert m'.ins[i] == m.ins[i]; }
    }
  }

  lemma PipeRun<T(!new)>(ps: seq<Pipe<T>>, es: seq<PipeEvent<T>>, k: nat)
    requires Run(PipeInit, PipeNext, ps, es) && k < |ps|
    ensures PipeInv(ps[k])
  {
    forall p: Pipe<T> | PipeInit(p) ensures PipeInv(p) {
      MergeInitInv(p.merge);
      assert forall i | 0 <= i < |p.split.fwd| :: p.merge.ins[i] == p.split.outs[i];
    }
    forall p: Pipe<T>, e, p' | PipeInv(p) && PipeNext(p, e, p') ensures PipeInv(p') {
      match e
      case Up(x) =>
        SplitStep(p.split, x, p'.split);
        FedInv(p, x, p'.split);
      case Down(x) => MergeStep(p.merge, x, p'.merge);
    }
    Invariance(PipeInit, PipeNext, PipeInv, ps, es, k);
  }

  lemma {:induction false} SumAdds<T>(a: seq<multiset<T>>, b: seq<multiset<T>>, c: seq<multiset<T>>)
    requires |a| == |b| == |c| && forall i | 0 <= i < |a| :: c[i] == a[i] + b[i]
    ensures Sum(c) == Sum(a) + Sum(b)
  {
    if a != [] { SumAdds(Front(a), Front(b), Front(c)); }
  }

  /** What forwarder i of Split took that forwarder i of Merge has not sent on: values between the two, the value each
      has in hand, and what each dropped on cancellation. */
  ghost function Unsettled<T>(p: Pipe<T>, i: nat): multiset<T>
    requires PipeInv(p) && i < |p.split.fwd|
  {
    var s, m := p.split, p.merge;
    assert MergeOk(m, i);
    multiset(s.outs[i][m.taken[i]..])
    + (multiset(Hand(s.fwd[i])) + multiset(Hand(m.fwd[i])))
    + (multiset(s.lost[i]) + multiset(m.lost[i]))
  }

  ghost function AllUnsettled<T>(p: Pipe<T>): seq<multiset<T>>
    requires PipeInv(p)
  {
    seq(|p.split.fwd|, i requires 0 <= i < |p.split.fwd| && PipeInv(p) => Unsettled(p, i))
  }

  /** Three consecutive pieces of a sequence, as multisets. */
  lemma Pieces<T>(a: seq<T>, b: seq<T>, c: seq<T>)
    ensures multiset(a + b + c) == multiset(a) + multiset(b) + multiset(c)
  {
    assert multiset(a + b + c) == multiset(a + b) + multiset(c);
  }

  lemma Regroup<T>(sent: multiset<T>, between: multiset<T>, hand: multiset<T>, hand': multiset<T>,
                   lost: multiset<T>, lost': multiset<T>)
    ensures (sent + hand' + lost') + between + hand + lost == sent + (between + (hand + hand') + (lost + lost'))
  {
  }

  lemma PartAccount<T>(p: Pipe<T>, i: nat)
    requires PipeInv(p) && i < |p.split.fwd|
    ensures multiset(Part(p.split.routed, i)) == multiset(Part(p.merge.out, i)) + Unsettled(p, i)
  {
    var s, m := p.split, p.merge;
    assert SplitOk(s, i) && MergeOk(m, i);
    StageAccount(Part(s.routed, i), s.outs[i], m.taken[i], Hand(s.fwd[i]), s.lost[i],
                 Part(m.out, i), Hand(m.fwd[i]), m.lost[i]);
  }

  lemma StageAccount<T>(part: seq<T>, out: seq<T>, n: nat, hand: seq<T>, lost: seq<T>,
                        sent: seq<T>, hand': seq<T>, lost': seq<T>)
    requires n <= |out| && part == out + hand + lost && sent + hand' + lost' == out[..n]
    ensures multiset(part)
            == multiset(sent)
               + (multiset(out[n..]) + (multiset(hand) + multiset(hand')) + (multiset(lost) + multiset(lost')))
  {
    Pieces(out, hand, lost);
    Pieces(sent, hand', lost');
    assert multiset(out) == multiset(out[..n]) + multiset(out[n..]) by { assert out == out[..n] + out[n..]; }
    Regroup(multiset(sent), multiset(out[n..]), multiset(hand), multiset(hand'), multiset(lost), multiset(lost'));
  }

  /** The two stages together, at every instant of every run, cancelled or not: the values taken from the input are those
      on the output and those unsettled at some pair of forwarders, of which each forwarder of either stage has dropped at
      most one, and only after its stage was cancelled. */
  lemma PipeAccount<T(!new)>(ps: seq<Pipe<T>>, es: seq<PipeEvent<T>>, k: nat)
    requires Run(PipeInit, PipeNext, ps, es) && k < |ps|
    ensures PipeInv(ps[k])
    ensures var s, m := ps[k].split, ps[k].merge;
            && multiset(s.input[..s.taken]) == multiset(Values(m.out)) + Sum(AllUnsettled(ps[k]))
            && forall i | 0 <= i < |s.fwd| ::
                 && |s.lost[i]| <= 1 && (s.lost[i] != [] ==> s.cancelled)
                 && |m.lost[i]| <= 1 && (m.lost[i] != [] ==> m.cancelled)
  {
    PipeRun(ps, es, k);
    var p, s, m, n := ps[k], ps[k].split, ps[k].merge, |ps[k].split.fwd|;
    var a, b, c := PartList(m.out, n), AllUnsettled(p), PartList(s.routed, n);
    forall i | 0 <= i < n ensures c[i] == a[i] + b[i] { PartAccount(p, i); }
    SumAdds(a, b, c);
    PartsAreValues(m.out, n);
    PartsAreValues(s.routed, n);
    forall i | 0 <= i < n
      ensures && |s.lost[i]| <= 1 && (s.lost[i] != [] ==> s.cancelled)
              && |m.lost[i]| <= 1 && (m.lost[i] != [] ==> m.cancelled)
    {
      assert SplitOk(s, i) && MergeOk(m, i);
    }
  }

  /** Fan-out followed by fan-in: when the output has closed and nothing was cancelled, the whole input, and nothing
      else, has come out, though in no particular order. */
  lemma RoundTrip<T(!new)>(ps: seq<Pipe<T>>, es: seq<PipeEvent<T>>, k: nat)
    requires Run(PipeInit, PipeNext, ps, es) && k < |ps|
    requires var p := ps[k]; !p.split.cancelled && !p.merge.cancelled && p.merge.closes == 1 && |p.split.fwd| > 0
    ensures ps[k].split.inClosed
    ensures multiset(Values(ps[k].merge.out)) == multiset(ps[k].split.input)
  {
    PipeRun(ps, es, k);
    var s, m := ps[k].split, ps[k].merge;
    forall i: nat | i < |s.fwd| ensures Part(m.out, i) == Part(s.routed, i) {
      assert m.fwd[i].Exited? && MergeOk(m, i) && SplitOk(s, i);
      assert m.ins[i][..m.taken[i]] == m.ins[i];
      assert m.lost[i] == [] && s.lost[i] == [];
    }
    assert SplitOk(s, 0) && MergeOk(m, 0) && m.fwd[0].Exited?;
    SameParts(m.out, s.routed, |s.fwd|);
    PartsAreValues(m.out, |s.fwd|);
    PartsAreValues(s.routed, |s.fwd|);
    assert s.input[..s.taken] == s.input;
  }

  // ----- the loop of one forwarder -----

  /** What the two selects of one iteration of a forwarder chose. */
  datatype Choice<T> = Received(v: T, sent: bool) | SawClosed | SawCancelled

  /** The loop both packages run in every forwarder, over the choices its selects make: what it sends is what it
      received, in order, short of the one value in hand if cancellation wins the inner select. */
  method Forward<T>(choices: seq<Choice<T>>) returns (out: seq<T>, dropped: seq<T>, n: nat)
    ensures n <= |choices|
    ensures forall k | 0 <= k < n :: choices[k].Received?
    ensures |dropped| <= 1 && |out| + |dropped| == n
    ensures forall k | 0 <= k < |out| :: choices[k].Received? && choices[k].sent && out[k] == choices[k].v
    ensures dropped != [] ==> choices[n - 1].Received? && !choices[n - 1].sent && dropped == [choices[n - 1].v]
    ensures dropped == [] && n < |choices| ==> !choices[n].Received?
  {
    out, dropped, n := [], [], 0;
    while n < |choices|
      invariant n <= |choices| && dropped == [] && |out| == n
      invariant forall k | 0 <= k < n :: choices[k].Received? && choices[k].sent && out[k] == choices[k].v
    {
      match choices[n]
      case SawClosed => return;
      case SawCancelled => return;
      case Received(v, sent) =>
        n := n + 1;
        if !sent {
          dropped := [v];
          return;
        }
        out := out + [v];
    }
  }
}
