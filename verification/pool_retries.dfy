/** How often the preemptive pool can take one thread without an instruction retiring. */
module PoolRetries {
  import opened Pools
  import opened PoolRuns
  import opened Sums

  /** Worker `i` takes the thread `id` out of the queue. */
  predicate Takes<M, L>(s: PoolRun<M, L>, t: PoolRun<M, L>, i: nat, id: nat) {
    && i < |s.workers| && i < |t.workers|
    && !s.workers[i].Picked? && t.workers[i].Picked? && t.workers[i].thread.id == id
  }

  /** Queued, the thread `id` is not runnable until more than `floor` instructions have retired. */
  predicate RestsQueued<L>(t: VmThread<L>, progress: nat, id: nat, floor: nat) {
    t.id == id ==> (t.state.Blocked? ==> floor <= t.blockedAt) && (t.state.Ready? ==> floor < progress)
  }

  predicate RestsInHand<L>(w: Phase<L>, progress: nat, id: nat, floor: nat) {
    w.Ran? ==>
      && (w.thread.id == id ==> floor <= w.epoch && (w.thread.state.Running? && !w.thread.halted ==> floor < progress))
      && Sum(w.spawned, HasId(id)) == 0
  }

  ghost predicate Rests<M, L>(s: PoolRun<M, L>, id: nat, floor: nat) {
    && floor <= s.shared.progress && id < s.shared.nextThreadId
    && (forall t :: t in s.pool.queue ==> RestsQueued(t, s.shared.progress, id, floor))
    && forall i :: 0 <= i < |s.workers| ==> RestsInHand(s.workers[i], s.shared.progress, id, floor)
  }

  lemma NoneHasId<L>(ts: seq<VmThread<L>>, id: nat, t: VmThread<L>)
    requires Sum(ts, HasId(id)) == 0 && t in ts
    ensures t.id != id
  {
    var k :| 0 <= k < |ts| && ts[k] == t;
    SumAtLeast(ts, k, HasId(id));
  }

  /** A thread in one worker's hands is nowhere else. */
  lemma HeldOnlyThere<M, L(!new)>(exec: (M, L) -> Outcome<M, L>, s: PoolRun<M, L>, i: nat, id: nat)
    requires Inv(exec, s) && i < |s.workers| && s.workers[i].Picked? && s.workers[i].thread.id == id
    ensures Rests(s, id, s.shared.progress)
  {
    var f := HoldsId<L>(id);
    SumAtLeast(s.workers, i, f);
    assert Occurrences(s, id) == 1;
    forall t | t in s.pool.queue ensures t.id != id {
      NoneHasId(s.pool.queue, id, t);
    }
    SumUpdate(s.workers, i, Scanning, f);
    var others := s.workers[i := Scanning];
    forall j | 0 <= j < |s.workers| ensures RestsInHand(s.workers[j], s.shared.progress, id, s.shared.progress) {
      SumAtLeast(others, j, f);
      assert j != i ==> others[j] == s.workers[j];
    }
  }

  /** The thread a look takes was in the queue, and runnable. */
  lemma LookTakes<L(!new)>(p: PoolState<L>) returns (was: VmThread<L>)
    requires LookAt(p).1.Take?
    ensures was in p.queue && IsRunnable(was, p.progress) && LookAt(p).1.thread == was.(state := Running)
  {
    RetainMembers(p.queue);
    var queue := Retain(p.queue);
    was := queue[FirstRunnable(queue, p.progress)];
    assert was in queue;
  }

  lemma LookKeepsQueued<L(!new)>(p: PoolState<L>, t: VmThread<L>)
    requires t in LookAt(p).0.queue
    ensures t in p.queue
  {
    RetainMembers(p.queue);
  }

  lemma RunKeepsRests<M, L(!new)>(exec: (M, L) -> Outcome<M, L>, quanta: nat, s: PoolRun<M, L>, i: nat, id: nat,
                                  floor: nat)
    requires Inv(exec, s) && quanta > 0 && Rests(s, id, floor) && i < |s.workers| && s.workers[i].Picked?
    ensures Rests(RunStep(exec, quanta, s, i), id, floor)
  {
    var q := Quantum(s.shared, s.workers[i].thread, []);
    assert WorkerOk(exec, s.pool, s.shared, s.workers[i]);
    RunForFacts(exec, quanta, q);
    RunForIds(exec, quanta, q, id);
  }

  lemma ReturnKeepsRests<M, L(!new)>(exec: (M, L) -> Outcome<M, L>, s: PoolRun<M, L>, i: nat, id: nat, floor: nat)
    requires Inv(exec, s) && Rests(s, id, floor) && i < |s.workers| && s.workers[i].Ran? && s.pool.running > 0
    ensures Rests(ReturnStep(s, i), id, floor)
  {
    var w := s.workers[i];
    var t := ReturnStep(s, i);
    assert WorkerOk(exec, s.pool, s.shared, w) && RestsInHand(w, s.shared.progress, id, floor);
    forall x | x in t.pool.queue ensures RestsQueued(x, t.shared.progress, id, floor) {
      if x in w.spawned {
        NoneHasId(w.spawned, id, x);
      }
    }
  }

  lemma LookKeepsRests<M, L(!new)>(s: PoolRun<M, L>, i: nat, id: nat, floor: nat)
    requires Rests(s, id, floor) && i < |s.workers|
    ensures Rests(LookStep(s, i), id, floor)
  {
    var t := LookStep(s, i);
    forall x | x in t.pool.queue ensures RestsQueued(x, t.shared.progress, id, floor) {
      LookKeepsQueued(s.pool, x);
    }
  }

  lemma MoveKeepsRests<M, L(!new)>(exec: (M, L) -> Outcome<M, L>, quanta: nat, s: PoolRun<M, L>, t: PoolRun<M, L>,
                                   id: nat, floor: nat)
    requires Inv(exec, s) && quanta > 0 && Rests(s, id, floor) && Steps(exec, quanta, s, t)
    ensures Rests(t, id, floor)
  {
    var i: nat :| Moves(exec, quanta, s, t, i);
    if s.workers[i].Waiting? && t == SpuriousWake(s, i) {
    } else if s.workers[i].Picked? {
      RunKeepsRests(exec, quanta, s, i, id, floor);
    } else if s.workers[i].Ran? {
      ReturnKeepsRests(exec, s, i, id, floor);
    } else if !WillNotify(s.workers[i]) {
      LookKeepsRests(s, i, id, floor);
    }
  }

  /** A take is a look of that worker. */
  lemma TakeIsLook<M, L(!new)>(exec: (M, L) -> Outcome<M, L>, quanta: nat, s: PoolRun<M, L>, t: PoolRun<M, L>, i: nat,
                               id: nat)
    requires Steps(exec, quanta, s, t) && Takes(s, t, i, id)
    ensures t == LookStep(s, i) && LookAt(s.pool).1.Take? && LookAt(s.pool).1.thread.id == id
  {
    var k: nat :| Moves(exec, quanta, s, t, k);
  }

  /** A resting thread that is taken after all has seen an instruction retire. */
  lemma TakenAfterProgress<M, L(!new)>(exec: (M, L) -> Outcome<M, L>, quanta: nat, s: PoolRun<M, L>, t: PoolRun<M, L>,
                                       i: nat, id: nat, floor: nat)
    requires Inv(exec, s) && Rests(s, id, floor) && Steps(exec, quanta, s, t) && Takes(s, t, i, id)
    ensures floor < s.shared.progress
  {
    TakeIsLook(exec, quanta, s, t, i, id);
    var was := LookTakes(s.pool);
    assert RestsQueued(was, s.shared.progress, id, floor);
  }

  lemma RestsAtFirst<M(!new), L(!new)>(exec: (M, L) -> Outcome<M, L>, quanta: nat, trace: seq<PoolRun<M, L>>, a: nat,
                                       i: nat, id: nat)
    requires IsTrace(exec, quanta, trace) && a + 1 < |trace| && Takes(trace[a], trace[a + 1], i, id)
    ensures Rests(trace[a + 1], id, trace[a].shared.progress)
  {
    var before, after := trace[a], trace[a + 1];
    TraceInv(exec, quanta, trace, a + 1);
    assert Steps(exec, quanta, before, after);
    TakeIsLook(exec, quanta, before, after, i, id);
    HeldOnlyThere(exec, after, i, id);
  }

  lemma RestsOn<M(!new), L(!new)>(exec: (M, L) -> Outcome<M, L>, quanta: nat, trace: seq<PoolRun<M, L>>, k: nat,
                                  id: nat, floor: nat)
    requires IsTrace(exec, quanta, trace) && quanta > 0 && k + 1 < |trace| && Rests(trace[k], id, floor)
    ensures Rests(trace[k + 1], id, floor)
  {
    var before, after := trace[k], trace[k + 1];
    TraceInv(exec, quanta, trace, k);
    assert Steps(exec, quanta, before, after);
    MoveKeepsRests(exec, quanta, before, after, id, floor);
  }

  lemma {:induction false} RestsSince<M(!new), L(!new)>(exec: (M, L) -> Outcome<M, L>, quanta: nat,
                                                        trace: seq<PoolRun<M, L>>, n: nat, k: nat, id: nat, floor: nat)
    requires IsTrace(exec, quanta, trace) && quanta > 0 && n <= k < |trace| && Rests(trace[n], id, floor)
    ensures Rests(trace[k], id, floor)
    decreases k - n
  {
    if n < k {
      RestsOn(exec, quanta, trace, n, id, floor);
      RestsSince(exec, quanta, trace, n + 1, k, id, floor);
    }
  }

  /** Between two takes of one thread, by any workers, some instruction has retired. */
  lemma RetriedAtMostOnce<M(!new), L(!new)>(exec: (M, L) -> Outcome<M, L>, quanta: nat, trace: seq<PoolRun<M, L>>,
                                            a: nat, b: nat, i: nat, j: nat, id: nat)
    requires IsTrace(exec, quanta, trace) && quanta > 0 && a < b && b + 1 < |trace|
    requires Takes(trace[a], trace[a + 1], i, id) && Takes(trace[b], trace[b + 1], j, id)
    ensures trace[a].shared.progress < trace[b].shared.progress
  {
    RestsAtFirst(exec, quanta, trace, a, i, id);
    RestsSince(exec, quanta, trace, a + 1, b, id, trace[a].shared.progress);
    TraceInv(exec, quanta, trace, b);
    var before, after := trace[b], trace[b + 1];
    assert Steps(exec, quanta, before, after);
    TakenAfterProgress(exec, quanta, before, after, j, id, trace[a].shared.progress);
  }
}
