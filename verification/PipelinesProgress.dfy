/** pkg/fanout and pkg/fanin: forwarders wait for nothing but input. */
module PipelinesProgress {
  import opened Runs
  import opened Pipelines

  /** A forwarder of Split waits for nothing but input: it can deliver what it holds, take a value that is there, exit when
      the input is closed and drained, and exit at once when cancelled. */
  lemma SplitNeverStuck<T(!new)>(ss: seq<Split<T>>, es: seq<Event<T>>, k: nat, i: nat) returns (e: Event<T>, s': Split<T>)
    requires Run(SplitInit, SplitNext, ss, es) && k < |ss| && i < |ss[k].fwd| && !ss[k].fwd[i].Exited?
    requires ss[k].fwd[i].Holding? || ss[k].taken < |ss[k].input| || ss[k].inClosed || ss[k].cancelled
    ensures (e.Take? || e.Deliver? || e.ExitDrained? || e.ExitCancelled?) && e.i == i && SplitNext(ss[k], e, s')
    ensures ss[k].cancelled ==> exists t :: SplitNext(ss[k], ExitCancelled(i), t)
  {
    SplitRun(ss, es, k);
    var s := ss[k];
    var t := s.(fwd := s.fwd[i := Exited], closes := s.closes[i := s.closes[i] + 1]);
    if s.fwd[i].Holding? {
      e, s' := Deliver(i), s.(fwd := s.fwd[i := Receiving], outs := s.outs[i := s.outs[i] + [s.fwd[i].v]]);
    } else if s.taken < |s.input| {
      var v := s.input[s.taken];
      e, s' := Take(i), s.(taken := s.taken + 1, fwd := s.fwd[i := Holding(v)], routed := s.routed + [(i, v)]);
    } else if s.inClosed {
      e, s' := ExitDrained(i), t;
    } else {
      e, s' := ExitCancelled(i), t.(lost := s.lost[i := s.lost[i] + Hand(s.fwd[i])]);
    }
    if s.cancelled { assert SplitNext(s, ExitCancelled(i), t.(lost := s.lost[i := s.lost[i] + Hand(s.fwd[i])])); }
  }

  /** Forwarder i has nothing to send, nothing to take, and no reason to exit. */
  ghost predicate Starved<T>(m: Merge<T>, i: nat) {
    && MergeShape(m) && i < |m.fwd| && m.fwd[i].Receiving?
    && m.taken[i] == |m.ins[i]| && !m.inClosed[i] && !m.cancelled
  }

  /** A forwarder of Merge waits for nothing but its own input. */
  lemma MergeNeverStuck<T(!new)>(ms: seq<Merge<T>>, es: seq<Event<T>>, k: nat, i: nat) returns (e: Event<T>, m': Merge<T>)
    requires Run(MergeInit, MergeNext, ms, es) && k < |ms| && i < |ms[k].fwd|
    requires !ms[k].fwd[i].Exited? && !Starved(ms[k], i)
    ensures (e.Take? || e.Deliver? || e.ExitDrained? || e.ExitCancelled?) && e.i == i && MergeNext(ms[k], e, m')
  {
    MergeRun(ms, es, k);
    var m := ms[k];
    assert MergeOk(m, i);
    var t := m.(fwd := m.fwd[i := Exited], wg := m.wg - 1);
    if m.fwd[i].Holding? {
      e, m' := Deliver(i), m.(fwd := m.fwd[i := Receiving], out := m.out + [(i, m.fwd[i].v)], fault := m.fault || m.closes > 0);
    } else if m.taken[i] < |m.ins[i]| {
      e, m' := Take(i), m.(taken := m.taken[i := m.taken[i] + 1], fwd := m.fwd[i := Holding(m.ins[i][m.taken[i]])]);
    } else if m.inClosed[i] {
      e, m' := ExitDrained(i), t;
    } else {
      e, m' := ExitCancelled(i), t.(lost := m.lost[i := m.lost[i] + Hand(m.fwd[i])]);
    }
  }

  /** Once every forwarder has exited the output can be closed, if it is not yet. */
  lemma MergeCanClose<T(!new)>(ms: seq<Merge<T>>, es: seq<Event<T>>, k: nat)
    requires Run(MergeInit, MergeNext, ms, es) && k < |ms| && |ms[k].fwd| > 0 && ms[k].closes == 0
    requires forall i | 0 <= i < |ms[k].fwd| :: ms[k].fwd[i].Exited?
    ensures MergeNext(ms[k], CloseOut, ms[k].(closes := 1))
  {
    MergeRun(ms, es, k);
    assert Running(ms[k].fwd) == {};
  }
}
