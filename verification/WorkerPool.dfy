// The pool that describes machines: a producer hands indexes over an unbuffered channel to workers that
// each fill their slot of the result.
module WorkerPool {

  datatype Worker = Idle | Busy(index: nat) | Done

  /** delivered and written record, in order, what went over the channel and which slots were filled. */
  datatype State<V> = State(
    next: nat, closed: bool, returned: bool, workers: seq<Worker>, slots: seq<V>,
    delivered: seq<nat>, written: seq<nat>)

  /** What a run works on: the items, how one is described, and what a slot holds at first. */
  datatype Job<!N, V> = Job(names: seq<N>, describe: N -> V, zero: V)

  function WorkerCount(n: nat): nat { if 4 > n then n else 4 }

  ghost predicate Init<N, V>(j: Job<N, V>, s: State<V>) {
    && s.next == 0 && !s.closed && !s.returned
    && |s.workers| == WorkerCount(|j.names|) && (forall w :: 0 <= w < |s.workers| ==> s.workers[w].Idle?)
    && |s.slots| == |j.names| && (forall i :: 0 <= i < |s.slots| ==> s.slots[i] == j.zero)
    && s.delivered == [] && s.written == []
  }

  // ---------- Steps ----------

  datatype Step = Deliver(w: nat) | Write(w: nat) | Close | Exit(w: nat) | Return

  predicate Enabled<N, V>(j: Job<N, V>, s: State<V>, step: Step) {
    match step
    case Deliver(w) => s.next < |j.names| && !s.closed && w < |s.workers| && s.workers[w].Idle?
    case Write(w) => w < |s.workers| && s.workers[w].Busy? && s.workers[w].index < |s.slots|
      && s.workers[w].index < |j.names|
    case Close => s.next >= |j.names| && !s.closed
    case Exit(w) => s.closed && w < |s.workers| && s.workers[w].Idle?
    case Return => s.closed && !s.returned && forall w :: 0 <= w < |s.workers| ==> s.workers[w].Done?
  }

  function Take<N, V>(j: Job<N, V>, s: State<V>, step: Step): State<V>
    requires Enabled(j, s, step)
  {
    match step
    case Deliver(w) => s.(next := s.next + 1, workers := s.workers[w := Busy(s.next)],
                          delivered := s.delivered + [s.next])
    case Write(w) =>
      var i := s.workers[w].index;
      s.(workers := s.workers[w := Idle], slots := s.slots[i := j.describe(j.names[i])], written := s.written + [i])
    case Close => s.(closed := true)
    case Exit(w) => s.(workers := s.workers[w := Done])
    case Return => s.(returned := true)
  }

  // ---------- Invariants ----------

  ghost predicate SomeoneHas(workers: seq<Worker>, i: nat) {
    exists w :: 0 <= w < |workers| && workers[w] == Busy(i)
  }

  /** No two workers have the same index, and each index at work was delivered. */
  ghost predicate Exclusive<V>(s: State<V>) {
    && (forall w :: 0 <= w < |s.workers| && s.workers[w].Busy? ==>
          s.workers[w].index < s.next && s.workers[w].index !in s.written)
    && (forall v, w :: 0 <= v < w < |s.workers| && s.workers[v].Busy? ==> s.workers[v] != s.workers[w])
  }

  /** Indexes went out once each, in order; each is at work or written; none is written twice. */
  ghost predicate Once<V>(s: State<V>) {
    && |s.delivered| == s.next && (forall i :: 0 <= i < s.next ==> s.delivered[i] == i)
    && (forall i: nat :: i < s.next ==> i in s.written || SomeoneHas(s.workers, i))
    && (forall k :: 0 <= k < |s.written| ==> s.written[k] < s.next)
    && (forall k, l :: 0 <= k < l < |s.written| ==> s.written[k] != s.written[l])
  }

  ghost predicate Filled<N, V>(j: Job<N, V>, s: State<V>) {
    && |s.slots| == |j.names|
    && forall i :: 0 <= i < |j.names| ==> s.slots[i] == if i in s.written then j.describe(j.names[i]) else j.zero
  }

  ghost predicate Phases<N, V>(j: Job<N, V>, s: State<V>) {
    && s.next <= |j.names| && |s.workers| == WorkerCount(|j.names|)
    && (s.closed ==> s.next == |j.names|)
    && (forall w :: 0 <= w < |s.workers| && s.workers[w].Done? ==> s.closed)
    && (s.returned ==> s.closed && forall w :: 0 <= w < |s.workers| ==> s.workers[w].Done?)
  }

  ghost predicate Inv<N, V>(j: Job<N, V>, s: State<V>) {
    Exclusive(s) && Once(s) && Filled(j, s) && Phases(j, s)
  }

  lemma InitInv<N, V>(j: Job<N, V>, s: State<V>)
    requires Init(j, s)
    ensures Inv(j, s)
  {
  }

  lemma DeliverInv<N, V>(j: Job<N, V>, s: State<V>, w: nat)
    requires Inv(j, s) && Enabled(j, s, Deliver(w))
    ensures Inv(j, Take(j, s, Deliver(w)))
  {
    var t := Take(j, s, Deliver(w));
    assert Filled(j, t) && Phases(j, t);
    hide Filled, Phases;
    assert Exclusive(t);
    DeliverOnce(s, t, w);
    hide Exclusive, Once;
  }

  lemma DeliverOnce<V>(s: State<V>, t: State<V>, w: nat)
    requires Once(s) && w < |s.workers| && s.workers[w].Idle?
    requires t == s.(next := s.next + 1, workers := s.workers[w := Busy(s.next)], delivered := s.delivered + [s.next])
    ensures Once(t)
  {
    assert t.workers[w] == Busy(s.next);
    forall i: nat | i < t.next ensures i in t.written || SomeoneHas(t.workers, i) {
      if i < s.next && i !in s.written {
        var v :| 0 <= v < |s.workers| && s.workers[v] == Busy(i);
        assert t.workers[v] == Busy(i);
      }
    }
  }

  lemma WriteInv<N, V>(j: Job<N, V>, s: State<V>, w: nat)
    requires Inv(j, s) && Enabled(j, s, Write(w))
    ensures Inv(j, Take(j, s, Write(w)))
  {
    var t := Take(j, s, Write(w));
    var i := s.workers[w].index;
    assert Phases(j, t);
    hide Phases;
    WriteOnce(s, t, w, i);
    WriteFilled(j, s, t, i);
    hide Filled, Once;
    WriteExclusive(s, t, w, i);
    hide Exclusive;
  }

  lemma WriteExclusive<V>(s: State<V>, t: State<V>, w: nat, i: nat)
    requires Exclusive(s) && w < |s.workers| && s.workers[w] == Busy(i)
    requires t.next == s.next && t.workers == s.workers[w := Idle] && t.written == s.written + [i]
    ensures Exclusive(t)
  {
    forall v | 0 <= v < |t.workers| && t.workers[v].Busy? ensures t.workers[v].index != i
      && t.workers[v].index !in s.written {
      assert t.workers[v] == s.workers[v] && v != w;
    }
  }

  lemma WriteOnce<V>(s: State<V>, t: State<V>, w: nat, i: nat)
    requires Once(s) && Exclusive(s) && w < |s.workers| && s.workers[w] == Busy(i)
    requires t.next == s.next && t.delivered == s.delivered && t.workers == s.workers[w := Idle]
    requires t.written == s.written + [i]
    ensures Once(t)
  {
    forall k: nat | k < t.next ensures k in t.written || SomeoneHas(t.workers, k) {
      if k !in s.written && k != i {
        var v :| 0 <= v < |s.workers| && s.workers[v] == Busy(k);
        assert t.workers[v] == Busy(k);
      }
    }
    forall k, l | 0 <= k < l < |t.written| ensures t.written[k] != t.written[l] {
      assert t.written[k] == s.written[k] && s.written[k] in s.written;
    }
  }

  lemma WriteFilled<N, V>(j: Job<N, V>, s: State<V>, t: State<V>, i: nat)
    requires Filled(j, s) && i < |j.names|
    requires t.slots == s.slots[i := j.describe(j.names[i])] && t.written == s.written + [i]
    ensures Filled(j, t)
  {
  }

  lemma OtherInv<N, V>(j: Job<N, V>, s: State<V>, step: Step)
    requires Inv(j, s) && Enabled(j, s, step) && !step.Deliver? && !step.Write?
    ensures Inv(j, Take(j, s, step))
  {
    var t := Take(j, s, step);
    assert Filled(j, t) && Phases(j, t) && Exclusive(t);
    hide Filled, Phases, Exclusive;
    forall i: nat | i < t.next && i !in t.written ensures SomeoneHas(t.workers, i) {
      var v :| 0 <= v < |s.workers| && s.workers[v] == Busy(i);
      assert t.workers[v] == Busy(i);
    }
  }

  /** Every step keeps the invariants. */
  lemma StepInv<N, V>(j: Job<N, V>, s: State<V>, step: Step)
    requires Inv(j, s) && Enabled(j, s, step)
    ensures Inv(j, Take(j, s, step))
  {
    hide Inv, Take;
    match step
    case Deliver(w) => DeliverInv(j, s, w);
    case Write(w) => WriteInv(j, s, w);
    case Close => OtherInv(j, s, step);
    case Exit(w) => OtherInv(j, s, step);
    case Return => OtherInv(j, s, step);
  }

  // ---------- Progress ----------

  /** No reachable state is stuck before the pool returns. */
  lemma NoDeadlock<N, V>(j: Job<N, V>, s: State<V>) returns (step: Step)
    requires Inv(j, s) && !s.returned
    ensures Enabled(j, s, step)
  {
    if w :| 0 <= w < |s.workers| && s.workers[w].Busy? {
      step := Write(w);
    } else if !s.closed {
      if s.next == |j.names| {
        step := Close;
      } else {
        assert s.workers[0].Idle?;
        step := Deliver(0);
      }
    } else if w :| 0 <= w < |s.workers| && s.workers[w].Idle? {
      step := Exit(w);
    } else {
      step := Return;
    }
  }

  function Weight(w: Worker): nat { match w case Idle => 1 case Busy(_) => 3 case Done => 0 }

  function Weights(ws: seq<Worker>): nat {
    if ws == [] then 0 else Weight(ws[0]) + Weights(ws[1..])
  }

  lemma {:induction false} WeightsUpdate(ws: seq<Worker>, k: nat, w: Worker)
    requires k < |ws|
    ensures Weights(ws[k := w]) == Weights(ws) - Weight(ws[k]) + Weight(w)
  {
    if k == 0 {
      assert ws[k := w][1..] == ws[1..];
    } else {
      assert ws[k := w][1..] == ws[1..][k - 1 := w];
      WeightsUpdate(ws[1..], k - 1, w);
    }
  }

  /** What is left to do; every step leaves less. */
  function Left<N, V>(j: Job<N, V>, s: State<V>): int {
    3 * (|j.names| - s.next) + Weights(s.workers) + (if s.closed then 0 else 1) + if s.returned then 0 else 1
  }

  lemma StepProgress<N, V>(j: Job<N, V>, s: State<V>, step: Step)
    requires Inv(j, s) && Enabled(j, s, step)
    ensures 0 <= Left(j, Take(j, s, step)) < Left(j, s)
  {
    StepInv(j, s, step);
    assert Take(j, s, step).next <= |j.names|;
    hide Inv, Once, Exclusive, Filled, Phases;
    match step
    case Deliver(w) => WeightsUpdate(s.workers, w, Busy(s.next));
    case Write(w) => WeightsUpdate(s.workers, w, Idle);
    case Close =>
    case Exit(w) => WeightsUpdate(s.workers, w, Done);
    case Return =>
  }

  // ---------- Runs ----------

  /** A run: from an initial state, each state leads to the next by some step. */
  ghost predicate IsRun<N, V>(j: Job<N, V>, run: seq<State<V>>) {
    && run != [] && Init(j, run[0])
    && forall k :: 0 <= k < |run| - 1 ==> exists step :: Enabled(j, run[k], step) && run[k + 1] == Take(j, run[k], step)
  }

  lemma {:induction false} RunInv<N, V>(j: Job<N, V>, run: seq<State<V>>, k: nat)
    requires IsRun(j, run) && k < |run|
    ensures Inv(j, run[k])
  {
    hide Inv, Enabled, Take;
    if k == 0 {
      InitInv(j, run[0]);
    } else {
      RunInv(j, run, k - 1);
      var step :| Enabled(j, run[k - 1], step) && run[k - 1 + 1] == Take(j, run[k - 1], step);
      StepInv(j, run[k - 1], step);
    }
  }

  lemma {:induction false} RunProgress<N, V>(j: Job<N, V>, run: seq<State<V>>, k: nat)
    requires IsRun(j, run) && k < |run|
    ensures 0 <= Left(j, run[k]) && k <= Left(j, run[0]) - Left(j, run[k])
  {
    hide *;
    RunInv(j, run, k);
    if k == 0 {
      LeftNatural(j, run[0]);
    } else {
      RunProgress(j, run, k - 1);
      RunInv(j, run, k - 1);
      var step := RunStep(j, run, k - 1);
      StepProgress(j, run[k - 1], step);
    }
  }

  lemma RunStep<N, V>(j: Job<N, V>, run: seq<State<V>>, k: nat) returns (step: Step)
    requires IsRun(j, run) && k + 1 < |run|
    ensures Enabled(j, run[k], step) && run[k + 1] == Take(j, run[k], step)
  {
    hide Enabled, Take, Init;
    step :| Enabled(j, run[k], step) && run[k + 1] == Take(j, run[k], step);
  }

  lemma LeftNatural<N, V>(j: Job<N, V>, s: State<V>)
    requires Inv(j, s)
    ensures 0 <= Left(j, s)
  {
  }

  lemma {:induction false} IdleWeights(ws: seq<Worker>)
    requires forall w :: 0 <= w < |ws| ==> ws[w].Idle?
    ensures Weights(ws) == |ws|
  {
    if ws != [] {
      IdleWeights(ws[1..]);
    }
  }

  /** Every interleaving ends: no run has more than 3 n + 2 steps besides one for each worker. */
  lemma RunsEnd<N, V>(j: Job<N, V>, run: seq<State<V>>)
    requires IsRun(j, run)
    ensures |run| <= 3 * |j.names| + WorkerCount(|j.names|) + 3
  {
    RunProgress(j, run, |run| - 1);
    IdleWeights(run[0].workers);
  }

  // ---------- The result ----------

  function Described<N, V>(names: seq<N>, describe: N -> V): (r: seq<V>)
    ensures |r| == |names| && forall i :: 0 <= i < |names| ==> r[i] == describe(names[i])
  {
    seq(|names|, i requires 0 <= i < |names| => describe(names[i]))
  }

  /** The loop that describes the machines one after the other. */
  method DescribeInOrder<N, V>(names: seq<N>, describe: N -> V) returns (vms: seq<V>)
    ensures vms == Described(names, describe)
  {
    vms := [];
    for i := 0 to |names|
      invariant |vms| == i && forall k :: 0 <= k < i ==> vms[k] == describe(names[k])
    {
      vms := vms + [describe(names[i])];
    }
  }

  /** Whatever the interleaving, when the pool returns every index was delivered once and written once, and the
      result is that of the plain loop. */
  lemma PoolResult<N, V>(j: Job<N, V>, run: seq<State<V>>, k: nat)
    requires IsRun(j, run) && k < |run| && run[k].returned
    ensures run[k].slots == Described(j.names, j.describe)
    ensures run[k].delivered == seq(|j.names|, i requires 0 <= i < |j.names| => i)
    ensures forall i: nat :: i < |j.names| ==> i in run[k].written
    ensures |run[k].written| == |j.names|
    ensures |run[k].workers| <= 4 && |run[k].workers| <= |j.names|
  {
    RunInv(j, run, k);
    hide IsRun;
    var s := run[k];
    forall i: nat | i < |j.names| ensures i in s.written {
      assert i in s.written || SomeoneHas(s.workers, i);
    }
    DistinctCount(s.written, |j.names|);
  }

  /** Numbers below n, none twice and none missing, are n numbers. */
  lemma DistinctCount(s: seq<nat>, n: nat)
    requires forall k :: 0 <= k < |s| ==> s[k] < n
    requires forall k, l :: 0 <= k < l < |s| ==> s[k] != s[l]
    requires forall i: nat :: i < n ==> i in s
    ensures |s| == n
  {
    MembersCount(s);
    BelowMember(n);
    assert Members(s) == Below(n);
  }

  function Members(s: seq<nat>): set<nat> {
    set x | x in s
  }

  function Below(n: nat): set<nat> {
    if n == 0 then {} else Below(n - 1) + {n - 1}
  }

  lemma {:induction false} MembersCount(s: seq<nat>)
    requires forall k, l :: 0 <= k < l < |s| ==> s[k] != s[l]
    ensures |Members(s)| == |s|
  {
    if s != [] {
      var n := |s| - 1;
      MembersCount(s[..n]);
      assert s == s[..n] + [s[n]];
      assert Members(s) == Members(s[..n]) + {s[n]};
      assert s[n] !in s[..n];
    }
  }

  lemma {:induction false} BelowMember(n: nat)
    ensures |Below(n)| == n && forall i: nat :: i in Below(n) <==> i < n
  {
    if n > 0 {
      BelowMember(n - 1);
    }
  }
}
