/** The order in which the preemptive pool's queue is served, and what each critical section leaves. */
module PoolOrder {
  import opened Pools
  import opened PoolRuns
  import opened Sums

  /** The threads on either side of a point are kept or dropped by themselves, in order. */
  lemma {:induction false} RetainSplits<L>(a: seq<VmThread<L>>, b: seq<VmThread<L>>)
    ensures Retain(a + b) == Retain(a) + Retain(b)
  {
    if a == [] {
      assert a + b == b;
    } else {
      assert (a + b)[0] == a[0] && (a + b)[1..] == a[1..] + b;
      RetainSplits(a[1..], b);
    }
  }

  /** A thread is dropped if and only if it has exited. */
  lemma RetainOfOne<L>(t: VmThread<L>)
    ensures Retain([t]) == if t.state == Exited then [] else [t]
  {
  }

  /** Ready, or parked before the count that has been reached. */
  predicate MayRun<L>(t: VmThread<L>, progress: nat) {
    t.state == Ready || (t.state.Blocked? && t.blockedAt < progress)
  }

  predicate NoneMayRun<L>(ts: seq<VmThread<L>>, progress: nat) {
    forall i :: 0 <= i < |ts| ==> !MayRun(ts[i], progress)
  }

  /** A look takes the first thread that may run, marked as running, and leaves the others in line as they were. */
  lemma LookTakesFirst<L>(p: PoolState<L>, a: seq<VmThread<L>>, t: VmThread<L>, b: seq<VmThread<L>>)
    requires !p.shutdown && Retain(p.queue) == a + [t] + b
    requires NoneMayRun(a, p.progress) && MayRun(t, p.progress)
    ensures LookAt(p).0 == PoolState(a + b, p.running + 1, p.progress, false)
    ensures LookAt(p).1 == Take(VmThread(t.id, t.local, t.halted, Running, t.blockedAt))
  {
    var queue := Retain(p.queue);
    var idx := FirstRunnable(queue, p.progress);
    assert forall k :: 0 <= k < |a| ==> queue[k] == a[k];
    assert queue[|a|] == t;
    assert idx == |a|;
    assert queue[..idx] + queue[idx + 1..] == a + b;
  }

  /** With no such thread it waits for one in some worker's hands, or ends the pool, or reports a deadlock. */
  lemma LookTakesNone<L>(p: PoolState<L>)
    requires !p.shutdown && NoneMayRun(Retain(p.queue), p.progress)
    ensures var live := Retain(p.queue);
      LookAt(p) ==
        if p.running > 0 then (PoolState(live, p.running, p.progress, false), Wait)
        else if live == [] then (PoolState(live, 0, p.progress, false), Quit)
        else (PoolState(live, 0, p.progress, true), ReportDeadlock)
  {
    assert FirstRunnable(Retain(p.queue), p.progress) == |Retain(p.queue)|;
  }

  lemma LookAfterShutdown<L>(p: PoolState<L>)
    requires p.shutdown
    ensures LookAt(p) == (p, Quit)
  {
  }

  /**
   A thread handed back goes to the end of the line, before those it spawned: as
   exited, or ready again, or parked at the count its worker saw, which the pool
   now knows of.
   */
  lemma HandBackExactly<L>(p: PoolState<L>, t: VmThread<L>, spawned: seq<VmThread<L>>, epoch: nat)
    requires p.running > 0
    ensures var after := HandBack(p, t, spawned, epoch); var n := |p.queue|;
      && after.running == p.running - 1 && after.shutdown == p.shutdown
      && after.progress >= epoch && after.progress >= p.progress
      && (after.progress == epoch || after.progress == p.progress)
      && |after.queue| == n + 1 + |spawned| && after.queue[..n] == p.queue && after.queue[n + 1..] == spawned
      && after.queue[n].id == t.id && after.queue[n].local == t.local && after.queue[n].halted == t.halted
      && (t.halted ==> after.queue[n].state == Exited)
      && (!t.halted ==> after.queue[n].state == if t.state == Running then Ready else t.state)
      && (!t.halted && t.state.Blocked? ==> after.queue[n].blockedAt == epoch)
  {
  }

  // --- How soon a runnable thread is taken ---

  ghost predicate TakesOne<M, L>(s: PoolRun<M, L>, t: PoolRun<M, L>) {
    exists i :: 0 <= i < |s.workers| && i < |t.workers| && TakenBy(s.workers[i], t.workers[i])
  }

  predicate TakenBy<L>(was: Phase<L>, now: Phase<L>) {
    !was.Picked? && now.Picked?
  }

  /** Some worker takes the thread with this id. */
  ghost predicate TakesThread<M, L>(s: PoolRun<M, L>, t: PoolRun<M, L>, id: nat) {
    exists i :: 0 <= i < |s.workers| && i < |t.workers| && TakenBy(s.workers[i], t.workers[i])
      && t.workers[i].thread.id == id
  }

  /** In line at place i, and runnable. */
  ghost predicate InLine<L>(p: PoolState<L>, i: nat, t: VmThread<L>) {
    i < |p.queue| && p.queue[i] == t && MayRun(t, p.progress)
  }

  lemma {:induction false} RetainedAt<L>(queue: seq<VmThread<L>>, i: nat) returns (j: nat)
    requires i < |queue| && queue[i].state != Exited
    ensures j <= i && j < |Retain(queue)| && Retain(queue)[j] == queue[i]
  {
    if i == 0 {
      j := 0;
    } else {
      var k := RetainedAt(queue[1..], i - 1);
      j := if queue[0].state.Exited? then k else k + 1;
    }
  }

  /** A look at a pool with a runnable thread in line takes that thread, or one before it. */
  lemma LookMovesUp<L>(p: PoolState<L>, i: nat, t: VmThread<L>) returns (j: nat)
    requires !p.shutdown && InLine(p, i, t)
    ensures LookAt(p).1.Take?
    ensures LookAt(p).1.thread.id == t.id || (j < i && InLine(LookAt(p).0, j, t))
  {
    var at := RetainedAt(p.queue, i);
    var queue := Retain(p.queue);
    var idx := FirstRunnable(queue, p.progress);
    assert idx <= at;
    j := 0;
    if idx < at {
      j := at - 1;
      RemovedBefore(queue, idx, at);
    }
  }

  lemma RemovedBefore<T>(xs: seq<T>, idx: nat, at: nat)
    requires idx < at < |xs|
    ensures at - 1 < |xs[..idx] + xs[idx + 1..]| && (xs[..idx] + xs[idx + 1..])[at - 1] == xs[at]
  {
  }

  ghost predicate NoFurtherBack<M, L>(s: PoolRun<M, L>, t: PoolRun<M, L>, i: nat, j: nat, waiting: VmThread<L>) {
    InLine(t.pool, j, waiting) && j <= i && (TakesOne(s, t) ==> j < i)
  }

  /**
   Any step of any worker leaves a runnable thread no further back in line, and
   further up if it takes another.
   */
  lemma StepMovesUp<M, L(!new)>(exec: (M, L) -> Outcome<M, L>, quanta: nat, s: PoolRun<M, L>, t: PoolRun<M, L>,
                                i: nat, waiting: VmThread<L>)
    returns (j: nat)
    requires Steps(exec, quanta, s, t) && !s.pool.shutdown && InLine(s.pool, i, waiting)
    ensures TakesThread(s, t, waiting.id) || NoFurtherBack(s, t, i, j, waiting)
  {
    var w: nat :| Moves(exec, quanta, s, t, w);
    j := i;
    if s.workers[w].Waiting? && t == SpuriousWake(s, w) {
      SameElsewhere(s, t, w);
    } else if s.workers[w].Scanning? || s.workers[w].Waiting? {
      j := LookMovesUp(s.pool, i, waiting);
      if LookAt(s.pool).1.thread.id == waiting.id {
        assert TakenBy(s.workers[w], t.workers[w]);
      }
    } else if s.workers[w].Ran? {
      HandBackExactly(s.pool, s.workers[w].thread, s.workers[w].spawned, s.workers[w].epoch);
      assert t.pool.queue[i] == t.pool.queue[..|s.pool.queue|][i];
      SameElsewhere(s, t, w);
    } else {
      NothingTaken(exec, quanta, s, t, w);
    }
  }

  lemma SameElsewhere<M, L>(s: PoolRun<M, L>, t: PoolRun<M, L>, w: nat)
    requires w < |s.workers| == |t.workers| && !t.workers[w].Picked?
    requires forall k :: 0 <= k < |s.workers| && k != w ==> t.workers[k] == s.workers[k]
    ensures !TakesOne(s, t)
  {
    forall k | 0 <= k < |s.workers| ensures !TakenBy(s.workers[k], t.workers[k]) {
    }
  }

  lemma NothingTaken<M, L(!new)>(exec: (M, L) -> Outcome<M, L>, quanta: nat, s: PoolRun<M, L>, t: PoolRun<M, L>, w: nat)
    requires w < |s.workers| && CanStep(s.workers[w]) && (s.workers[w].Ran? ==> s.pool.running > 0)
    requires s.workers[w].Picked? || s.workers[w].Announcing? || s.workers[w].Alarming?
    requires t == Next(exec, quanta, s, w)
    ensures !TakesOne(s, t) && t.pool == s.pool
  {
    forall k | 0 <= k < |s.workers| && k < |t.workers| ensures !TakenBy(s.workers[k], t.workers[k]) {
    }
  }

  /** How many of the steps from `a` up to `b` take a thread out of the queue. */
  ghost function Takings<M, L>(trace: seq<PoolRun<M, L>>, a: nat, b: nat): nat
    requires a <= b < |trace|
    decreases b - a
  {
    if a == b then 0 else (if TakesOne(trace[a], trace[a + 1]) then 1 else 0) + Takings(trace, a + 1, b)
  }

  /** A pool with a runnable thread in line has not been shut down. */
  lemma InLineIsOpen<M, L(!new)>(exec: (M, L) -> Outcome<M, L>, s: PoolRun<M, L>, i: nat, waiting: VmThread<L>)
    requires Inv(exec, s) && InLine(s.pool, i, waiting)
    ensures !s.pool.shutdown
  {
    assert waiting in s.pool.queue;
    assert s.pool.shutdown ==> Stuck(waiting, s.shared.progress);
  }

  lemma TraceMovesUp<M(!new), L(!new)>(exec: (M, L) -> Outcome<M, L>, quanta: nat, trace: seq<PoolRun<M, L>>,
                                       a: nat, i: nat, waiting: VmThread<L>)
    returns (j: nat)
    requires IsTrace(exec, quanta, trace) && a + 1 < |trace| && InLine(trace[a].pool, i, waiting)
    ensures TakesThread(trace[a], trace[a + 1], waiting.id)
      || NoFurtherBack(trace[a], trace[a + 1], i, j, waiting)
  {
    TraceInv(exec, quanta, trace, a);
    var here, next := trace[a], trace[a + 1];
    assert Steps(exec, quanta, here, next);
    InLineIsOpen(exec, here, i, waiting);
    j := StepMovesUp(exec, quanta, here, next, i, waiting);
  }

  /** Wherever the thread is in line before a step, it is then taken, or no further back. */
  ghost predicate MovesUp<M, L(!new)>(s: PoolRun<M, L>, t: PoolRun<M, L>, waiting: VmThread<L>) {
    forall i: nat :: InLine(s.pool, i, waiting) ==>
      TakesThread(s, t, waiting.id) || exists j: nat :: NoFurtherBack(s, t, i, j, waiting)
  }

  ghost predicate AllMoveUp<M, L(!new)>(trace: seq<PoolRun<M, L>>, waiting: VmThread<L>) {
    forall c, d :: 0 <= c < d < |trace| && d == c + 1 ==> MovesUp(trace[c], trace[d], waiting)
  }

  lemma TraceStepMovesUp<M(!new), L(!new)>(exec: (M, L) -> Outcome<M, L>, quanta: nat, trace: seq<PoolRun<M, L>>,
                                           a: nat, b: nat, waiting: VmThread<L>)
    requires IsTrace(exec, quanta, trace) && a + 1 == b < |trace|
    ensures MovesUp(trace[a], trace[b], waiting)
  {
    forall i: nat | InLine(trace[a].pool, i, waiting) && !TakesThread(trace[a], trace[b], waiting.id)
      ensures exists j: nat :: NoFurtherBack(trace[a], trace[b], i, j, waiting)
    {
      var j := TraceMovesUp(exec, quanta, trace, a, i, waiting);
    }
  }

  lemma TraceAllMovesUp<M(!new), L(!new)>(exec: (M, L) -> Outcome<M, L>, quanta: nat, trace: seq<PoolRun<M, L>>,
                                          waiting: VmThread<L>)
    requires IsTrace(exec, quanta, trace)
    ensures AllMoveUp(trace, waiting)
  {
    forall c, d | 0 <= c < d < |trace| && d == c + 1 ensures MovesUp(trace[c], trace[d], waiting) {
      TraceStepMovesUp(exec, quanta, trace, c, d, waiting);
    }
  }

  lemma {:induction false} CountsDown<M(!new), L(!new)>(trace: seq<PoolRun<M, L>>, a: nat, b: nat, i: nat,
                                                        waiting: VmThread<L>)
    returns (k: nat)
    requires a <= b < |trace| && InLine(trace[a].pool, i, waiting) && Takings(trace, a, b) > i
    requires AllMoveUp(trace, waiting)
    ensures a <= k < b && TakesThread(trace[k], trace[k + 1], waiting.id)
    decreases b - a
  {
    var here, next := trace[a], trace[a + 1];
    assert MovesUp(here, next, waiting);
    if TakesThread(here, next, waiting.id) {
      k := a;
    } else {
      var j: nat :| NoFurtherBack(here, next, i, j, waiting);
      k := CountsDown(trace, a + 1, b, j, waiting);
    }
  }

  /**
   No runnable thread is passed over: whatever the interleaving, the one at place
   i in line is among the first i + 1 threads that any workers take from then on.
   */
  lemma TakenWithin<M(!new), L(!new)>(exec: (M, L) -> Outcome<M, L>, quanta: nat, trace: seq<PoolRun<M, L>>, a: nat,
                                      b: nat, i: nat, waiting: VmThread<L>)
    returns (k: nat)
    requires IsTrace(exec, quanta, trace) && a <= b < |trace|
    requires InLine(trace[a].pool, i, waiting) && Takings(trace, a, b) > i
    ensures a <= k < b && TakesThread(trace[k], trace[k + 1], waiting.id)
  {
    TraceAllMovesUp(exec, quanta, trace, waiting);
    k := CountsDown(trace, a, b, i, waiting);
  }
}
