/**
 The preemptive pool (scheduler.rs): a run queue that tells a real deadlock from
 a temporary wait by comparing instruction counts.

 Instructions are a parameter: `exec` says what the next instruction of a thread
 does to the shared memory M and to the thread's own context L. An instruction
 that parks changes neither, as a receive on an empty channel does.
 */
module Pools {
  datatype Outcome<M, L> =
    | Retired(mem: M, local: L, halted: bool, children: seq<L>)
    | Parked(channel: nat)
    | OffEnd

  datatype ThreadState = Ready | Running | Blocked(channel: nat) | Exited

  datatype VmThread<L> = VmThread(id: nat, local: L, halted: bool, state: ThreadState, blockedAt: nat)

  /** What the shared lock protects. */
  datatype Shared<M> = Shared(mem: M, progress: nat, nextThreadId: nat)

  /** One quantum: the thread and shared state after it, and the threads it spawned. */
  datatype Quantum<M, L> = Quantum(shared: Shared<M>, thread: VmThread<L>, spawned: seq<VmThread<L>>)

  const DEFAULT_QUANTA: nat := 2048

  function NewThreads<L>(children: seq<L>, firstId: nat): (r: seq<VmThread<L>>)
    ensures |r| == |children|
    ensures forall i :: 0 <= i < |r| ==> r[i] == VmThread(firstId + i, children[i], false, Ready, 0)
  {
    seq(|children|, i requires 0 <= i < |children| => VmThread(firstId + i, children[i], false, Ready, 0))
  }

  /** The effect of one retired instruction. */
  function Retire<M, L>(q: Quantum<M, L>, o: Outcome<M, L>): Quantum<M, L>
    requires o.Retired?
  {
    Quantum(
      Shared(o.mem, q.shared.progress + 1, q.shared.nextThreadId + |o.children|),
      q.thread.(local := o.local, halted := o.halted),
      q.spawned + NewThreads(o.children, q.shared.nextThreadId))
  }

  /** Up to `quanta` instructions of one thread. */
  function RunFor<M, L>(exec: (M, L) -> Outcome<M, L>, quanta: nat, q: Quantum<M, L>): Quantum<M, L>
    decreases quanta
  {
    if quanta == 0 || q.thread.halted then q
    else match exec(q.shared.mem, q.thread.local)
      case OffEnd => q.(thread := q.thread.(halted := true))
      case Parked(channel) => q.(thread := q.thread.(state := Blocked(channel)))
      case Retired(_, _, _, _) => RunFor(exec, quanta - 1, Retire(q, exec(q.shared.mem, q.thread.local)))
  }

  /** `run_thread_quanta_shared`: the loop over one quantum. */
  method RunThreadQuantaShared<M, L>(exec: (M, L) -> Outcome<M, L>, quanta: nat, shared: Shared<M>, thread: VmThread<L>)
    returns (q: Quantum<M, L>, executed: nat)
    ensures q == RunFor(exec, quanta, Quantum(shared, thread, []))
    ensures q.shared.progress == shared.progress + executed
  {
    q := Quantum(shared, thread, []);
    executed := 0;
    var i := 0;
    while i < quanta
      invariant i <= quanta
      invariant RunFor(exec, quanta - i, q) == RunFor(exec, quanta, Quantum(shared, thread, []))
      invariant q.shared.progress == shared.progress + executed
    {
      if q.thread.halted {
        break;
      }
      var o := exec(q.shared.mem, q.thread.local);
      match o {
        case OffEnd =>
          q := q.(thread := q.thread.(halted := true));
          break;
        case Parked(channel) =>
          q := q.(thread := q.thread.(state := Blocked(channel)));
          return;
        case Retired(_, _, _, _) =>
          q := Retire(q, o);
          executed := executed + 1;
      }
      i := i + 1;
    }
  }

  predicate IsRunnable<L>(t: VmThread<L>, progress: nat) {
    match t.state
    case Ready => true
    case Blocked(_) => t.blockedAt < progress
    case Running => false
    case Exited => false
  }

  /** The queue without the threads that have exited. */
  function Retain<L>(queue: seq<VmThread<L>>): seq<VmThread<L>> {
    if queue == [] then []
    else (if !queue[0].state.Exited? then [queue[0]] else []) + Retain(queue[1..])
  }

  lemma {:induction false} RetainMembers<L(!new)>(queue: seq<VmThread<L>>)
    ensures forall t :: t in Retain(queue) <==> t in queue && !t.state.Exited?
  {
    if queue != [] {
      RetainMembers(queue[1..]);
      assert queue == [queue[0]] + queue[1..];
    }
  }

  lemma RetainStep<L>(kept: seq<VmThread<L>>, all: seq<VmThread<L>>, i: nat)
    requires i < |all|
    ensures kept + Retain(all[i..]) == (if all[i].state.Exited? then kept else kept + [all[i]]) + Retain(all[i + 1..])
  {
    assert all[i..][1..] == all[i + 1..];
  }

  /** Index of the first runnable thread, or the queue's length. */
  function FirstRunnable<L>(queue: seq<VmThread<L>>, progress: nat): (i: nat)
    ensures i <= |queue|
    ensures i < |queue| ==> IsRunnable(queue[i], progress)
    ensures forall k :: 0 <= k < i ==> !IsRunnable(queue[k], progress)
  {
    if queue == [] then 0
    else if IsRunnable(queue[0], progress) then 0
    else
      var k := FirstRunnable(queue[1..], progress);
      assert forall j :: 0 < j < 1 + k ==> queue[j] == queue[1..][j - 1];
      1 + k
  }

  /** What a worker does after one look at the pool. */
  datatype Look<L> = Quit | Take(thread: VmThread<L>) | ReportDeadlock | Wait

  datatype PoolState<L> = PoolState(queue: seq<VmThread<L>>, running: nat, progress: nat, shutdown: bool)

  function LookAt<L>(p: PoolState<L>): (r: (PoolState<L>, Look<L>)) {
    if p.shutdown then (p, Quit)
    else
      var queue := Retain(p.queue);
      var idx := FirstRunnable(queue, p.progress);
      if idx < |queue| then
        (p.(queue := queue[..idx] + queue[idx + 1..], running := p.running + 1), Take(queue[idx].(state := Running)))
      else if p.running == 0 then
        if queue == [] then (p.(queue := queue), Quit)
        else (p.(queue := queue, shutdown := true), ReportDeadlock)
      else (p.(queue := queue), Wait)
  }

  /** The state a thread goes back to the queue in. */
  function Settled<L>(t: VmThread<L>, epoch: nat): VmThread<L> {
    if t.halted then t.(state := Exited)
    else if t.state.Running? then t.(state := Ready)
    else if t.state.Blocked? then t.(blockedAt := epoch)
    else t
  }

  function HandBack<L>(p: PoolState<L>, t: VmThread<L>, spawned: seq<VmThread<L>>, epoch: nat): PoolState<L>
    requires p.running > 0
  {
    p.(running := p.running - 1,
       progress := if epoch > p.progress then epoch else p.progress,
       queue := p.queue + [Settled(t, epoch)] + spawned)
  }

  /** The pool behind its lock; each method is one critical section of a worker. */
  class ThreadPool<L> {
    var queue: seq<VmThread<L>>
    var running: nat
    var progress: nat
    var shutdown: bool

    function State(): PoolState<L>
      reads this
    {
      PoolState(queue, running, progress, shutdown)
    }

    constructor ()
      ensures State() == PoolState([], 0, 0, false)
    {
      queue, running, progress, shutdown := [], 0, 0, false;
    }

    method RetainLive()
      modifies this`queue
      ensures queue == Retain(old(queue))
    {
      var all, kept: seq<VmThread<L>> := queue, [];
      for i := 0 to |all|
        invariant kept + Retain(all[i..]) == Retain(all)
      {
        RetainStep(kept, all, i);
        if !all[i].state.Exited? {
          kept := kept + [all[i]];
        }
      }
      queue := kept;
    }

    method FindRunnable() returns (idx: nat)
      ensures idx == FirstRunnable(queue, progress)
    {
      idx := 0;
      while idx < |queue| && !IsRunnable(queue[idx], progress)
        invariant idx <= |queue|
        invariant forall k :: 0 <= k < idx ==> !IsRunnable(queue[k], progress)
      {
        idx := idx + 1;
      }
    }

    /** One turn of the worker's inner loop, from taking the lock to leaving or waiting. */
    method PopReady() returns (look: Look<L>)
      modifies this
      ensures (State(), look) == LookAt(old(State()))
    {
      if shutdown {
        return Quit;
      }
      RetainLive();
      var idx := FindRunnable();
      if idx < |queue| {
        var t := queue[idx];
        queue := queue[..idx] + queue[idx + 1..];
        running := running + 1;
        return Take(t.(state := Running));
      }
      if running == 0 {
        if queue == [] {
          return Quit;
        }
        shutdown := true;
        return ReportDeadlock;
      }
      return Wait;
    }

    method GiveBack(thread: VmThread<L>, spawned: seq<VmThread<L>>, epoch: nat)
      requires running > 0
      modifies this
      ensures State() == HandBack(old(State()), thread, spawned, epoch)
    {
      running := running - 1;
      if epoch > progress {
        progress := epoch;
      }
      var t := thread;
      if t.halted {
        t := t.(state := Exited);
      } else if t.state.Running? {
        t := t.(state := Ready);
      } else if t.state.Blocked? {
        t := t.(blockedAt := epoch);
      }
      queue := queue + [t];
      queue := queue + spawned;
    }
  }
}
