/**
 Every interleaving of the preemptive pool's workers.

 A worker holds a lock only inside one of the steps below, so a step is one
 critical section: a look at the pool (which may end in `Condvar::wait`), a
 quantum under the shared lock, handing the thread back, or `notify_all`, which
 the source calls after releasing the pool lock.
 */
module PoolRuns {
  import opened Pools
  import opened Sums

  datatype Phase<L> =
    | Scanning
    | Waiting(notified: bool)
    | Picked(thread: VmThread<L>)
    | Ran(thread: VmThread<L>, spawned: seq<VmThread<L>>, epoch: nat)
    | Announcing
    | Alarming
    | Finished
    | Deadlocked

  /** `gone` remembers the ids of threads dropped from the queue after they exited. */
  datatype PoolRun<M, L> = PoolRun(workers: seq<Phase<L>>, pool: PoolState<L>, shared: Shared<M>, gone: multiset<nat>)

  function NotifyAll<L>(ws: seq<Phase<L>>): (r: seq<Phase<L>>)
    ensures |r| == |ws|
    ensures forall i :: 0 <= i < |ws| ==> r[i] == if ws[i].Waiting? then Waiting(true) else ws[i]
  {
    seq(|ws|, i requires 0 <= i < |ws| => if ws[i].Waiting? then Waiting(true) else ws[i])
  }

  predicate CanStep<L>(w: Phase<L>) {
    w.Scanning? || (w.Waiting? && w.notified) || w.Picked? || w.Ran? || w.Announcing? || w.Alarming?
  }

  function ExitedIds<L>(queue: seq<VmThread<L>>): multiset<nat> {
    if queue == [] then multiset{}
    else (if queue[0].state.Exited? then multiset{queue[0].id} else multiset{}) + ExitedIds(queue[1..])
  }

  function AfterLook<L>(look: Look<L>): Phase<L> {
    match look
    case Quit => Finished
    case Take(t) => Picked(t)
    case ReportDeadlock => Alarming
    case Wait => Waiting(false)
  }

  function LookStep<M, L(!new)>(s: PoolRun<M, L>, i: nat): PoolRun<M, L>
    requires i < |s.workers|
  {
    var (pool, look) := LookAt(s.pool);
    PoolRun(s.workers[i := AfterLook(look)], pool, s.shared,
            if s.pool.shutdown then s.gone else s.gone + ExitedIds(s.pool.queue))
  }

  function RunStep<M, L>(exec: (M, L) -> Outcome<M, L>, quanta: nat, s: PoolRun<M, L>, i: nat): PoolRun<M, L>
    requires i < |s.workers| && s.workers[i].Picked?
  {
    var q := RunFor(exec, quanta, Quantum(s.shared, s.workers[i].thread, []));
    s.(workers := s.workers[i := Ran(q.thread, q.spawned, q.shared.progress)], shared := q.shared)
  }

  function ReturnStep<M, L>(s: PoolRun<M, L>, i: nat): PoolRun<M, L>
    requires i < |s.workers| && s.workers[i].Ran? && s.pool.running > 0
  {
    var w := s.workers[i];
    s.(pool := HandBack(s.pool, w.thread, w.spawned, w.epoch), workers := s.workers[i := Announcing])
  }

  function NotifyStep<M, L>(s: PoolRun<M, L>, i: nat): PoolRun<M, L>
    requires i < |s.workers| && (s.workers[i].Announcing? || s.workers[i].Alarming?)
  {
    s.(workers := NotifyAll(s.workers)[i := if s.workers[i].Announcing? then Scanning else Deadlocked])
  }

  /** One step of worker `i`. A thread in a worker's hands is always counted in `running`. */
  function Next<M, L(!new)>(exec: (M, L) -> Outcome<M, L>, quanta: nat, s: PoolRun<M, L>, i: nat): PoolRun<M, L>
    requires i < |s.workers| && CanStep(s.workers[i])
    requires s.workers[i].Ran? ==> s.pool.running > 0
  {
    if s.workers[i].Picked? then RunStep(exec, quanta, s, i)
    else if s.workers[i].Ran? then ReturnStep(s, i)
    else if s.workers[i].Announcing? || s.workers[i].Alarming? then NotifyStep(s, i)
    else LookStep(s, i)
  }

  /** A condition variable may wake a waiter without a signal. */
  function SpuriousWake<M, L>(s: PoolRun<M, L>, i: nat): PoolRun<M, L>
    requires i < |s.workers| && s.workers[i].Waiting?
  {
    s.(workers := s.workers[i := Waiting(true)])
  }

  /** It may look at the pool again, and nothing else has changed. */
  lemma SpuriousWakeExactly<M, L>(s: PoolRun<M, L>, i: nat)
    requires i < |s.workers| && s.workers[i].Waiting?
    ensures var t := SpuriousWake(s, i);
      && |t.workers| == |s.workers| && CanStep(t.workers[i])
      && t.pool == s.pool && t.shared == s.shared && t.gone == s.gone
      && forall j :: 0 <= j < |s.workers| && j != i ==> t.workers[j] == s.workers[j]
  {
  }

  // --- What holds in every reachable state ---

  function InHand<L>(w: Phase<L>): nat {
    if w.Picked? || w.Ran? then 1 else 0
  }

  predicate Parks<M, L>(exec: (M, L) -> Outcome<M, L>, mem: M, local: L) {
    exec(mem, local).Parked?
  }

  /** A queued thread; one that parked at the current count would park again if retried now. */
  predicate QueuedOk<M, L>(exec: (M, L) -> Outcome<M, L>, progress: nat, shared: Shared<M>, t: VmThread<L>) {
    && !t.state.Running?
    && (t.state.Exited? <==> t.halted)
    && (t.state.Blocked? ==>
          && t.blockedAt <= progress
          && (t.blockedAt == shared.progress ==> Parks(exec, shared.mem, t.local)))
  }

  predicate Fresh<L>(t: VmThread<L>) {
    t.state.Ready? && !t.halted
  }

  ghost predicate WorkerOk<M, L(!new)>(exec: (M, L) -> Outcome<M, L>, pool: PoolState<L>, shared: Shared<M>,
                                       w: Phase<L>)
  {
    match w
    case Picked(t) => t.state.Running? && !t.halted
    case Ran(t, spawned, epoch) =>
      && epoch <= shared.progress
      && (t.state.Running?
        || (t.state.Blocked? && !t.halted && (epoch == shared.progress ==> Parks(exec, shared.mem, t.local))))
      && forall c :: c in spawned ==> Fresh(c)
    case Alarming => pool.shutdown
    case Deadlocked => pool.shutdown
    case Finished => pool.shutdown || (pool.running == 0 && pool.queue == [])
    case _ => true
  }

  ghost predicate ThreadsOk<M, L(!new)>(exec: (M, L) -> Outcome<M, L>, s: PoolRun<M, L>) {
    && (forall t :: t in s.pool.queue ==> QueuedOk(exec, s.pool.progress, s.shared, t))
    && forall i :: 0 <= i < |s.workers| ==> WorkerOk(exec, s.pool, s.shared, s.workers[i])
  }

  /** `running` counts the threads in workers' hands. */
  predicate RunningOk<M, L>(s: PoolRun<M, L>) {
    s.pool.running == Sum(s.workers, InHand)
  }

  predicate ReportsLatest<L>(w: Phase<L>, progress: nat) {
    w.Ran? && w.epoch == progress
  }

  /** The pool's count is current, or a worker is on its way with the current one. */
  ghost predicate ProgressOk<M, L>(s: PoolRun<M, L>) {
    && s.pool.progress <= s.shared.progress
    && (s.pool.progress == s.shared.progress
        || exists i :: 0 <= i < |s.workers| && ReportsLatest(s.workers[i], s.shared.progress))
  }

  predicate WillNotify<L>(w: Phase<L>) {
    w.Announcing? || w.Alarming?
  }

  predicate Asleep<L>(w: Phase<L>) {
    w.Waiting? && !w.notified
  }

  /** A sleeping worker is owed a notification. */
  ghost predicate WakeOk<M, L>(s: PoolRun<M, L>) {
    (exists i :: 0 <= i < |s.workers| && Asleep(s.workers[i])) ==>
      s.pool.running > 0 || exists j :: 0 <= j < |s.workers| && WillNotify(s.workers[j])
  }

  predicate Stuck<L>(t: VmThread<L>, progress: nat) {
    t.state.Blocked? && t.blockedAt == progress
  }

  /** Once a deadlock is reported, only threads parked at the current count are left. */
  ghost predicate ShutdownOk<M, L(!new)>(s: PoolRun<M, L>) {
    s.pool.shutdown ==>
      && s.pool.running == 0
      && s.pool.queue != []
      && s.pool.progress == s.shared.progress
      && (forall t :: t in s.pool.queue ==> Stuck(t, s.shared.progress))
      && exists i :: 0 <= i < |s.workers| && (s.workers[i].Alarming? || s.workers[i].Deadlocked?)
  }

  function HasId<L>(id: nat): VmThread<L> -> nat {
    (t: VmThread<L>) => if t.id == id then 1 else 0
  }

  function IdsInHand<L>(id: nat, w: Phase<L>): nat {
    match w
    case Picked(t) => if t.id == id then 1 else 0
    case Ran(t, spawned, _) => (if t.id == id then 1 else 0) + Sum(spawned, HasId(id))
    case _ => 0
  }

  function HoldsId<L>(id: nat): Phase<L> -> nat {
    (w: Phase<L>) => IdsInHand(id, w)
  }

  /** How often a thread id occurs, in the queue, in hand, or among the exited. */
  function Occurrences<M, L>(s: PoolRun<M, L>, id: nat): nat {
    Sum(s.pool.queue, HasId(id)) + Sum(s.workers, HoldsId(id)) + s.gone[id]
  }

  /** Every id handed out belongs to exactly one thread, and no other id to any. */
  ghost predicate IdsOk<M, L>(s: PoolRun<M, L>) {
    && s.shared.nextThreadId >= 1
    && forall id: nat :: Occurrences(s, id) == if 1 <= id < s.shared.nextThreadId then 1 else 0
  }

  ghost predicate Inv<M, L(!new)>(exec: (M, L) -> Outcome<M, L>, s: PoolRun<M, L>) {
    ThreadsOk(exec, s) && RunningOk(s) && ProgressOk(s) && WakeOk(s) && ShutdownOk(s) && IdsOk(s)
  }

  /** Freshly built: ready threads with ids 1, 2, ... and idle workers. */
  ghost predicate Initial<M, L>(s: PoolRun<M, L>) {
    && (forall i :: 0 <= i < |s.workers| ==> s.workers[i].Scanning?)
    && s.pool.running == 0 && s.pool.progress == 0 && !s.pool.shutdown
    && s.shared.progress == 0
    && s.shared.nextThreadId == 1 + |s.pool.queue|
    && (forall i :: 0 <= i < |s.pool.queue| ==> Fresh(s.pool.queue[i]) && s.pool.queue[i].id == i + 1)
    && s.gone == multiset{}
  }

  // --- One quantum ---

  /** What a quantum does to the thread, the count and the ids. */
  lemma {:induction false} RunForFacts<M, L(!new)>(exec: (M, L) -> Outcome<M, L>, quanta: nat, q: Quantum<M, L>)
    requires q.thread.state.Running?
    requires forall c :: c in q.spawned ==> Fresh(c)
    ensures var r := RunFor(exec, quanta, q);
      && r.shared.progress >= q.shared.progress
      && r.shared.nextThreadId >= q.shared.nextThreadId
      && r.thread.id == q.thread.id
      && (r.thread.state.Running?
        || (r.thread.state.Blocked? && !r.thread.halted && Parks(exec, r.shared.mem, r.thread.local)))
      && (forall c :: c in r.spawned ==> Fresh(c))
      && (r.shared.progress == q.shared.progress ==>
            && r.shared == q.shared && r.spawned == q.spawned
            && (quanta == 0 || r.thread.halted || r.thread.state.Blocked?))
    decreases quanta
  {
    if quanta > 0 && !q.thread.halted {
      var o := exec(q.shared.mem, q.thread.local);
      if o.Retired? {
        RunForFacts(exec, quanta - 1, Retire(q, o));
      }
    }
  }

  lemma {:induction false} NewThreadIds<L>(children: seq<L>, firstId: nat, id: nat)
    ensures Sum(NewThreads(children, firstId), HasId(id)) == if firstId <= id < firstId + |children| then 1 else 0
  {
    var ts := NewThreads(children, firstId);
    if children != [] {
      NewThreadIds(children[1..], firstId + 1, id);
      assert ts[1..] == NewThreads(children[1..], firstId + 1);
    }
  }

  lemma {:induction false} RunForIds<M, L>(exec: (M, L) -> Outcome<M, L>, quanta: nat, q: Quantum<M, L>, id: nat)
    ensures var r := RunFor(exec, quanta, q);
      && r.shared.nextThreadId >= q.shared.nextThreadId
      && Sum(r.spawned, HasId(id)) ==
        Sum(q.spawned, HasId(id)) + (if q.shared.nextThreadId <= id < r.shared.nextThreadId then 1 else 0)
    decreases quanta
  {
    if quanta > 0 && !q.thread.halted {
      var o := exec(q.shared.mem, q.thread.local);
      if o.Retired? {
        RunForIds(exec, quanta - 1, Retire(q, o), id);
        SumConcat(q.spawned, NewThreads(o.children, q.shared.nextThreadId), HasId(id));
        NewThreadIds(o.children, q.shared.nextThreadId, id);
      }
    }
  }

  // --- The queue ---

  lemma {:induction false} RetainIds<L(!new)>(queue: seq<VmThread<L>>, id: nat)
    ensures Sum(Retain(queue), HasId(id)) + ExitedIds(queue)[id] == Sum(queue, HasId(id))
  {
    if queue != [] {
      RetainIds(queue[1..], id);
      assert queue == [queue[0]] + queue[1..];
      if !queue[0].state.Exited? {
        assert Retain(queue) == [queue[0]] + Retain(queue[1..]);
        assert Retain(queue)[1..] == Retain(queue[1..]);
      } else {
        assert Retain(queue) == Retain(queue[1..]);
      }
    }
  }

  /** A look at an open pool: what it takes, keeps and decides. */
  lemma LookFacts<L(!new)>(p: PoolState<L>)
    requires !p.shutdown
    ensures var (r, look) := LookAt(p);
      && r.progress == p.progress
      && (p.queue == [] ==> r.queue == [] && !look.Take?)
      && (forall t :: t in r.queue ==> t in p.queue && !t.state.Exited?)
      && (look.Take? ==>
            && r.running == p.running + 1 && !r.shutdown
            && exists t: VmThread<L> ::
              t in p.queue && IsRunnable(t, p.progress) && look.thread == t.(state := Running))
      && (look.Quit? ==> r.running == p.running == 0 && r.queue == [] && !r.shutdown)
      && (look.ReportDeadlock? ==> r.running == p.running == 0 && r.queue != [] && r.shutdown)
      && (look.Wait? ==> r.running == p.running > 0 && !r.shutdown)
      && (!look.Take? ==> forall t :: t in r.queue ==> !IsRunnable(t, p.progress))
  {
    RetainMembers(p.queue);
    var queue := Retain(p.queue);
    var idx := FirstRunnable(queue, p.progress);
    if idx < |queue| {
      assert queue[idx] in queue;
    }
  }

  // --- The invariants, one at a time ---

  lemma InHandUpdate<M, L>(s: PoolRun<M, L>, i: nat, w: Phase<L>)
    requires i < |s.workers| && RunningOk(s)
    ensures Sum(s.workers[i := w], InHand) == s.pool.running + InHand(w) - InHand(s.workers[i])
  {
    SumUpdate(s.workers, i, w, InHand);
  }

  lemma RunningKept<M, L(!new)>(exec: (M, L) -> Outcome<M, L>, quanta: nat, s: PoolRun<M, L>, i: nat)
    requires i < |s.workers| && CanStep(s.workers[i]) && (s.workers[i].Ran? ==> s.pool.running > 0)
    requires RunningOk(s)
    ensures RunningOk(Next(exec, quanta, s, i))
  {
    var t := Next(exec, quanta, s, i);
    if s.workers[i].Announcing? || s.workers[i].Alarming? {
      SumSame(s.workers, t.workers, InHand);
    } else {
      InHandUpdate(s, i, t.workers[i]);
    }
  }

  /** A worker holding a thread is counted. */
  lemma HolderCounted<M, L>(s: PoolRun<M, L>, i: nat)
    requires i < |s.workers| && RunningOk(s) && InHand(s.workers[i]) == 1
    ensures s.pool.running > 0
  {
    SumAtLeast(s.workers, i, InHand);
  }

  lemma HolderExists<M, L>(s: PoolRun<M, L>) returns (i: nat)
    requires RunningOk(s) && s.pool.running > 0
    ensures i < |s.workers| && (s.workers[i].Picked? || s.workers[i].Ran?)
  {
    i := SumPositive(s.workers, InHand);
  }

  lemma LookKeepsThreads<M, L(!new)>(exec: (M, L) -> Outcome<M, L>, s: PoolRun<M, L>, i: nat)
    requires i < |s.workers| && ThreadsOk(exec, s) && RunningOk(s)
    ensures ThreadsOk(exec, LookStep(s, i))
  {
    if !s.pool.shutdown {
      LookFacts(s.pool);
      var (pool, look) := LookAt(s.pool);
      forall j | 0 <= j < |s.workers| && j != i ensures WorkerOk(exec, pool, s.shared, s.workers[j]) {
        assert WorkerOk(exec, s.pool, s.shared, s.workers[j]);
      }
    }
  }

  lemma RunKeepsThreads<M, L(!new)>(exec: (M, L) -> Outcome<M, L>, quanta: nat, s: PoolRun<M, L>, i: nat)
    requires i < |s.workers| && s.workers[i].Picked? && ThreadsOk(exec, s) && ProgressOk(s)
    ensures ThreadsOk(exec, RunStep(exec, quanta, s, i))
  {
    assert WorkerOk(exec, s.pool, s.shared, s.workers[i]);
    RunForFacts(exec, quanta, Quantum(s.shared, s.workers[i].thread, []));
    var t := RunStep(exec, quanta, s, i);
    forall j | 0 <= j < |s.workers| && j != i ensures WorkerOk(exec, t.pool, t.shared, t.workers[j]) {
      assert WorkerOk(exec, s.pool, s.shared, s.workers[j]);
    }
  }

  lemma ReturnKeepsThreads<M, L(!new)>(exec: (M, L) -> Outcome<M, L>, s: PoolRun<M, L>, i: nat)
    requires i < |s.workers| && s.workers[i].Ran? && s.pool.running > 0
    requires ThreadsOk(exec, s) && ShutdownOk(s)
    ensures ThreadsOk(exec, ReturnStep(s, i))
  {
    var w := s.workers[i];
    assert WorkerOk(exec, s.pool, s.shared, w);
    var t := ReturnStep(s, i);
    forall x | x in t.pool.queue ensures QueuedOk(exec, t.pool.progress, t.shared, x) {
      assert x in s.pool.queue || x == Settled(w.thread, w.epoch) || x in w.spawned;
    }
    forall j | 0 <= j < |s.workers| && j != i ensures WorkerOk(exec, t.pool, t.shared, t.workers[j]) {
      assert WorkerOk(exec, s.pool, s.shared, s.workers[j]);
    }
  }

  lemma NotifyKeepsThreads<M, L(!new)>(exec: (M, L) -> Outcome<M, L>, s: PoolRun<M, L>, i: nat)
    requires i < |s.workers| && WillNotify(s.workers[i]) && ThreadsOk(exec, s)
    ensures ThreadsOk(exec, NotifyStep(s, i))
  {
    var t := NotifyStep(s, i);
    forall j | 0 <= j < |s.workers| ensures WorkerOk(exec, t.pool, t.shared, t.workers[j]) {
      assert WorkerOk(exec, s.pool, s.shared, s.workers[j]);
    }
  }

  lemma ThreadsKept<M, L(!new)>(exec: (M, L) -> Outcome<M, L>, quanta: nat, s: PoolRun<M, L>, i: nat)
    requires i < |s.workers| && CanStep(s.workers[i]) && (s.workers[i].Ran? ==> s.pool.running > 0)
    requires ThreadsOk(exec, s) && RunningOk(s) && ProgressOk(s) && ShutdownOk(s)
    ensures ThreadsOk(exec, Next(exec, quanta, s, i))
  {
    if s.workers[i].Picked? {
      RunKeepsThreads(exec, quanta, s, i);
    } else if s.workers[i].Ran? {
      ReturnKeepsThreads(exec, s, i);
    } else if WillNotify(s.workers[i]) {
      NotifyKeepsThreads(exec, s, i);
    } else {
      LookKeepsThreads(exec, s, i);
    }
  }

  /** A worker other than `i` that reports the current count still does after the step. */
  lemma ProgressKept<M, L(!new)>(exec: (M, L) -> Outcome<M, L>, quanta: nat, s: PoolRun<M, L>, i: nat)
    requires i < |s.workers| && CanStep(s.workers[i]) && (s.workers[i].Ran? ==> s.pool.running > 0)
    requires ThreadsOk(exec, s) && ProgressOk(s)
    ensures ProgressOk(Next(exec, quanta, s, i))
  {
    var t := Next(exec, quanta, s, i);
    var w := s.workers[i];
    assert WorkerOk(exec, s.pool, s.shared, w);
    if w.Picked? {
      RunForFacts(exec, quanta, Quantum(s.shared, w.thread, []));
      assert ReportsLatest(t.workers[i], t.shared.progress);
    } else {
      if !w.Ran? && !WillNotify(w) && !s.pool.shutdown {
        LookFacts(s.pool);
      }
      if t.pool.progress != t.shared.progress {
        var j :| 0 <= j < |s.workers| && ReportsLatest(s.workers[j], s.shared.progress);
        assert j != i;
        assert ReportsLatest(t.workers[j], t.shared.progress);
      }
    }
  }

  lemma WakeKept<M, L(!new)>(exec: (M, L) -> Outcome<M, L>, quanta: nat, s: PoolRun<M, L>, i: nat)
    requires i < |s.workers| && CanStep(s.workers[i]) && (s.workers[i].Ran? ==> s.pool.running > 0)
    requires RunningOk(s) && WakeOk(s)
    ensures WakeOk(Next(exec, quanta, s, i))
  {
    var t := Next(exec, quanta, s, i);
    var w := s.workers[i];
    if w.Ran? {
      assert WillNotify(t.workers[i]);
    } else if w.Picked? {
      HolderCounted(s, i);
    } else if !WillNotify(w) {
      if !s.pool.shutdown {
        LookFacts(s.pool);
      }
      if exists k :: 0 <= k < |t.workers| && Asleep(t.workers[k]) {
        var k :| 0 <= k < |t.workers| && Asleep(t.workers[k]);
        if k != i && s.pool.running == 0 {
          assert Asleep(s.workers[k]);
          var j :| 0 <= j < |s.workers| && WillNotify(s.workers[j]);
          assert WillNotify(t.workers[j]);
        }
      }
    }
  }

  lemma ShutdownKept<M, L(!new)>(exec: (M, L) -> Outcome<M, L>, quanta: nat, s: PoolRun<M, L>, i: nat)
    requires i < |s.workers| && CanStep(s.workers[i]) && (s.workers[i].Ran? ==> s.pool.running > 0)
    requires ThreadsOk(exec, s) && RunningOk(s) && ProgressOk(s) && ShutdownOk(s)
    ensures ShutdownOk(Next(exec, quanta, s, i))
  {
    var t := Next(exec, quanta, s, i);
    var w := s.workers[i];
    if w.Picked? {
      HolderCounted(s, i);
    } else if s.pool.shutdown {
      var j :| 0 <= j < |s.workers| && (s.workers[j].Alarming? || s.workers[j].Deadlocked?);
      assert t.workers[j].Alarming? || t.workers[j].Deadlocked?;
    } else if !w.Ran? && !WillNotify(w) {
      LookFacts(s.pool);
      if t.pool.shutdown {
        assert t.workers[i].Alarming?;
        NobodyReports(s);
        forall x | x in t.pool.queue ensures Stuck(x, s.shared.progress) {
          assert QueuedOk(exec, s.pool.progress, s.shared, x);
        }
      }
    }
  }

  /** With no thread in hand, the pool has already been told the current count. */
  lemma NobodyReports<M, L(!new)>(s: PoolRun<M, L>)
    requires RunningOk(s) && ProgressOk(s) && s.pool.running == 0
    ensures s.pool.progress == s.shared.progress
  {
    if s.pool.progress != s.shared.progress {
      var j :| 0 <= j < |s.workers| && ReportsLatest(s.workers[j], s.shared.progress);
      HolderCounted(s, j);
    }
  }

  lemma IdsKept<M, L(!new)>(exec: (M, L) -> Outcome<M, L>, quanta: nat, s: PoolRun<M, L>, i: nat, id: nat)
    requires i < |s.workers| && CanStep(s.workers[i]) && (s.workers[i].Ran? ==> s.pool.running > 0)
    requires ThreadsOk(exec, s)
    ensures var t := Next(exec, quanta, s, i);
      && t.shared.nextThreadId >= s.shared.nextThreadId
      && Occurrences(t, id) == Occurrences(s, id) + if s.shared.nextThreadId <= id < t.shared.nextThreadId then 1 else 0
  {
    var t := Next(exec, quanta, s, i);
    var w := s.workers[i];
    assert WorkerOk(exec, s.pool, s.shared, w);
    if w.Picked? {
      RunForFacts(exec, quanta, Quantum(s.shared, w.thread, []));
      RunForIds(exec, quanta, Quantum(s.shared, w.thread, []), id);
      SumUpdate(s.workers, i, t.workers[i], HoldsId(id));
    } else if w.Ran? {
      SumUpdate(s.workers, i, Announcing, HoldsId(id));
      var back := Settled(w.thread, w.epoch);
      SumConcat(s.pool.queue + [back], w.spawned, HasId(id));
      SumConcat(s.pool.queue, [back], HasId(id));
      SumOne(back, HasId(id));
    } else if WillNotify(w) {
      SumSame(s.workers, t.workers, HoldsId(id));
    } else {
      LookKeepsIds(s, i, id);
    }
  }

  lemma TakeIds<L>(queue: seq<VmThread<L>>, idx: nat, id: nat)
    requires idx < |queue|
    ensures Sum(queue[..idx] + queue[idx + 1..], HasId(id)) + IdsInHand(id, Picked(queue[idx].(state := Running))) ==
      Sum(queue, HasId(id))
  {
    SumRemove(queue, idx, HasId(id));
  }

  /** A look moves at most one thread out of the queue, and drops only exited ones. */
  lemma LookIds<L(!new)>(p: PoolState<L>, id: nat)
    ensures var (r, look) := LookAt(p);
      Sum(r.queue, HasId(id)) + IdsInHand(id, AfterLook(look)) + (if p.shutdown then 0 else ExitedIds(p.queue)[id]) ==
        Sum(p.queue, HasId(id))
  {
    if !p.shutdown {
      RetainIds(p.queue, id);
      var queue := Retain(p.queue);
      var idx := FirstRunnable(queue, p.progress);
      if idx < |queue| {
        TakeIds(queue, idx, id);
      } else {
        assert IdsInHand(id, AfterLook(LookAt(p).1)) == 0;
      }
    }
  }

  lemma LookKeepsIds<M, L(!new)>(s: PoolRun<M, L>, i: nat, id: nat)
    requires i < |s.workers| && (s.workers[i].Scanning? || s.workers[i].Waiting?)
    ensures Occurrences(LookStep(s, i), id) == Occurrences(s, id)
  {
    var t := LookStep(s, i);
    SumUpdate(s.workers, i, t.workers[i], HoldsId(id));
    LookIds(s.pool, id);
  }

  /** Every step keeps every invariant; in particular `running` never underflows. */
  lemma NextKeepsInv<M, L(!new)>(exec: (M, L) -> Outcome<M, L>, quanta: nat, s: PoolRun<M, L>, i: nat)
    requires i < |s.workers| && CanStep(s.workers[i]) && Inv(exec, s)
    ensures s.workers[i].Ran? ==> s.pool.running > 0
    ensures Inv(exec, Next(exec, quanta, s, i))
  {
    if s.workers[i].Ran? {
      HolderCounted(s, i);
    }
    ThreadsKept(exec, quanta, s, i);
    RunningKept(exec, quanta, s, i);
    ProgressKept(exec, quanta, s, i);
    WakeKept(exec, quanta, s, i);
    ShutdownKept(exec, quanta, s, i);
    IdsKept(exec, quanta, s, i, 0);
    forall id: nat ensures Occurrences(Next(exec, quanta, s, i), id) ==
      if 1 <= id < Next(exec, quanta, s, i).shared.nextThreadId then 1 else 0
    {
      IdsKept(exec, quanta, s, i, id);
    }
  }

  // --- Runs ---

  ghost predicate Moves<M, L(!new)>(exec: (M, L) -> Outcome<M, L>, quanta: nat, s: PoolRun<M, L>, t: PoolRun<M, L>,
                                    i: nat)
  {
    && i < |s.workers|
    && ((CanStep(s.workers[i]) && (s.workers[i].Ran? ==> s.pool.running > 0) && t == Next(exec, quanta, s, i))
        || (s.workers[i].Waiting? && t == SpuriousWake(s, i)))
  }

  ghost predicate Steps<M, L(!new)>(exec: (M, L) -> Outcome<M, L>, quanta: nat, s: PoolRun<M, L>, t: PoolRun<M, L>) {
    exists i: nat :: Moves(exec, quanta, s, t, i)
  }

  ghost predicate IsTrace<M(!new), L(!new)>(exec: (M, L) -> Outcome<M, L>, quanta: nat, trace: seq<PoolRun<M, L>>) {
    && trace != []
    && Initial(trace[0])
    && forall k, n :: 0 <= k < n < |trace| && n == k + 1 ==> Steps(exec, quanta, trace[k], trace[n])
  }

  lemma {:induction false} InitialIds<L>(queue: seq<VmThread<L>>, first: nat, id: nat)
    requires forall i :: 0 <= i < |queue| ==> queue[i].id == first + i
    ensures Sum(queue, HasId(id)) == if first <= id < first + |queue| then 1 else 0
  {
    if queue != [] {
      InitialIds(queue[1..], first + 1, id);
    }
  }

  lemma InitialInv<M, L(!new)>(exec: (M, L) -> Outcome<M, L>, s: PoolRun<M, L>)
    requires Initial(s)
    ensures Inv(exec, s)
  {
    SumZero(s.workers, InHand);
    forall id: nat ensures Occurrences(s, id) == if 1 <= id < s.shared.nextThreadId then 1 else 0 {
      SumZero(s.workers, HoldsId(id));
      InitialIds(s.pool.queue, 1, id);
    }
    forall t | t in s.pool.queue ensures QueuedOk(exec, s.pool.progress, s.shared, t) {
      var i :| 0 <= i < |s.pool.queue| && s.pool.queue[i] == t;
      assert Fresh(s.pool.queue[i]);
    }
  }

  lemma SpuriousKeepsInv<M, L(!new)>(exec: (M, L) -> Outcome<M, L>, s: PoolRun<M, L>, i: nat)
    requires i < |s.workers| && s.workers[i].Waiting? && Inv(exec, s)
    ensures Inv(exec, SpuriousWake(s, i))
  {
    var t := SpuriousWake(s, i);
    SumUpdate(s.workers, i, Waiting(true), InHand);
    assert WakeOk(t) by {
      if k :| 0 <= k < |t.workers| && Asleep(t.workers[k]) {
        assert Asleep(s.workers[k]);
        if s.pool.running == 0 {
          var j :| 0 <= j < |s.workers| && WillNotify(s.workers[j]);
          assert WillNotify(t.workers[j]);
        }
      }
    }
    assert ProgressOk(t) by {
      if t.pool.progress != t.shared.progress {
        var j :| 0 <= j < |s.workers| && ReportsLatest(s.workers[j], s.shared.progress);
        assert ReportsLatest(t.workers[j], t.shared.progress);
      }
    }
    assert ShutdownOk(t) by {
      if t.pool.shutdown {
        var j :| 0 <= j < |s.workers| && (s.workers[j].Alarming? || s.workers[j].Deadlocked?);
        assert t.workers[j].Alarming? || t.workers[j].Deadlocked?;
      }
    }
    forall id: nat ensures Occurrences(t, id) == Occurrences(s, id) {
      SumUpdate(s.workers, i, Waiting(true), HoldsId(id));
    }
  }

  lemma StepKeepsInv<M, L(!new)>(exec: (M, L) -> Outcome<M, L>, quanta: nat, s: PoolRun<M, L>, t: PoolRun<M, L>)
    requires Steps(exec, quanta, s, t) && Inv(exec, s)
    ensures Inv(exec, t)
  {
    var i: nat :| Moves(exec, quanta, s, t, i);
    if s.workers[i].Waiting? && t == SpuriousWake(s, i) {
      SpuriousKeepsInv(exec, s, i);
    } else {
      NextKeepsInv(exec, quanta, s, i);
    }
  }

  /** The invariants hold in every state of every interleaving, spurious wake-ups included. */
  lemma {:induction false} TraceInv<M(!new), L(!new)>(exec: (M, L) -> Outcome<M, L>, quanta: nat,
                                                      trace: seq<PoolRun<M, L>>, k: nat)
    requires IsTrace(exec, quanta, trace) && k < |trace|
    ensures Inv(exec, trace[k])
  {
    if k == 0 {
      InitialInv(exec, trace[0]);
    } else {
      TraceInv(exec, quanta, trace, k - 1);
      var before, after := trace[k - 1], trace[k];
      assert Steps(exec, quanta, before, after);
      StepKeepsInv(exec, quanta, before, after);
    }
  }

  /**
   A reported deadlock is real: no thread is in a worker's hands, the pool's
   count is the shared one, and every thread that has not exited sits in the
   queue, parked at exactly that count, on an operation that would park again.
   */
  lemma DeadlockIsReal<M(!new), L(!new)>(exec: (M, L) -> Outcome<M, L>, quanta: nat, trace: seq<PoolRun<M, L>>,
                                         k: nat, i: nat)
    requires IsTrace(exec, quanta, trace) && k < |trace|
    requires i < |trace[k].workers| && (trace[k].workers[i].Alarming? || trace[k].workers[i].Deadlocked?)
    ensures var s := trace[k];
      && (forall j :: 0 <= j < |s.workers| ==> !s.workers[j].Picked? && !s.workers[j].Ran?)
      && s.pool.progress == s.shared.progress
      && (forall t :: t in s.pool.queue ==>
            t.state.Blocked? && t.blockedAt == s.shared.progress && Parks(exec, s.shared.mem, t.local))
      && (forall id: nat :: 1 <= id < s.shared.nextThreadId ==> Sum(s.pool.queue, HasId(id)) + s.gone[id] == 1)
  {
    var s := trace[k];
    TraceInv(exec, quanta, trace, k);
    assert WorkerOk(exec, s.pool, s.shared, s.workers[i]);
    forall j | 0 <= j < |s.workers| ensures !s.workers[j].Picked? && !s.workers[j].Ran? {
      if s.workers[j].Picked? || s.workers[j].Ran? {
        HolderCounted(s, j);
      }
    }
    forall t | t in s.pool.queue ensures Stuck(t, s.shared.progress) && Parks(exec, s.shared.mem, t.local) {
      assert QueuedOk(exec, s.pool.progress, s.shared, t);
    }
    forall id: nat | 1 <= id < s.shared.nextThreadId ensures Sum(s.pool.queue, HasId(id)) + s.gone[id] == 1 {
      SumZero(s.workers, HoldsId(id));
      assert Occurrences(s, id) == 1;
    }
  }

  /** A worker that has returned. */
  predicate Done<L>(w: Phase<L>) {
    w.Finished? || w.Deadlocked?
  }

  /**
   The pool never sleeps forever: while any worker has not returned, some worker
   can take a step without waiting for a signal that will not come.
   */
  lemma NeverStuck<M(!new), L(!new)>(exec: (M, L) -> Outcome<M, L>, quanta: nat, trace: seq<PoolRun<M, L>>, k: nat)
    requires IsTrace(exec, quanta, trace) && k < |trace|
    requires exists i :: 0 <= i < |trace[k].workers| && !Done(trace[k].workers[i])
    ensures exists i :: 0 <= i < |trace[k].workers| && CanStep(trace[k].workers[i])
  {
    var s := trace[k];
    TraceInv(exec, quanta, trace, k);
    var i :| 0 <= i < |s.workers| && !Done(s.workers[i]);
    if Asleep(s.workers[i]) {
      if s.pool.running > 0 {
        var j := HolderExists(s);
        assert CanStep(s.workers[j]);
      } else {
        var j :| 0 <= j < |s.workers| && WillNotify(s.workers[j]);
        assert CanStep(s.workers[j]);
      }
    } else {
      assert CanStep(s.workers[i]);
    }
  }

  /**
   When all workers have returned, either one of them reported a deadlock, or
   every thread there ever was has exited.
   */
  lemma AllReturned<M(!new), L(!new)>(exec: (M, L) -> Outcome<M, L>, quanta: nat, trace: seq<PoolRun<M, L>>, k: nat)
    requires IsTrace(exec, quanta, trace) && k < |trace|
    requires trace[k].workers != [] && forall i :: 0 <= i < |trace[k].workers| ==> Done(trace[k].workers[i])
    ensures var s := trace[k];
      (exists i :: 0 <= i < |s.workers| && s.workers[i].Deadlocked?) ||
      (s.pool.queue == [] && forall id: nat :: 1 <= id < s.shared.nextThreadId ==> s.gone[id] == 1)
  {
    var s := trace[k];
    TraceInv(exec, quanta, trace, k);
    assert Done(s.workers[0]) && WorkerOk(exec, s.pool, s.shared, s.workers[0]);
    if !s.pool.shutdown {
      forall id: nat | 1 <= id < s.shared.nextThreadId ensures s.gone[id] == 1 {
        SumZero(s.workers, HoldsId(id));
        assert Occurrences(s, id) == 1;
      }
    } else {
      var j :| 0 <= j < |s.workers| && (s.workers[j].Alarming? || s.workers[j].Deadlocked?);
      assert Done(s.workers[j]);
    }
  }

  // --- No spinning ---

  /** A queued thread a worker may still take before another instruction retires. */
  predicate Stale<L>(t: VmThread<L>, progress: nat) {
    t.state.Ready? || (t.state.Blocked? && t.blockedAt < progress)
  }

  function StaleWeight<L>(progress: nat, cost: nat): VmThread<L> -> nat {
    (t: VmThread<L>) => if Stale(t, progress) then cost else 0
  }

  /** Steps a worker may still take, on its own behalf and by waking the n others. */
  function PhaseRank<L>(w: Phase<L>, progress: nat, n: nat): nat {
    match w
    case Finished => 0
    case Deadlocked => 0
    case Waiting(notified) => if notified then 2 else 1
    case Scanning => 2
    case Announcing => n + 3
    case Alarming => n + 3
    case Ran(t, spawned, epoch) =>
      n + 4 + (if Stale(Settled(t, epoch), progress) then n + 6 else 0) + Sum(spawned, StaleWeight(progress, n + 6))
    case Picked(_) => n + 5
  }

  function PhaseWeight<L>(progress: nat, n: nat): Phase<L> -> nat {
    (w: Phase<L>) => PhaseRank(w, progress, n)
  }

  function Rank<M, L>(s: PoolRun<M, L>): nat {
    var n := |s.workers|;
    Sum(s.pool.queue, StaleWeight(s.shared.progress, n + 6))
    + Sum(s.workers, PhaseWeight(s.shared.progress, n))
    + if s.pool.shutdown then 0 else n + 5
  }

  lemma {:induction false} RetainWeight<L(!new)>(queue: seq<VmThread<L>>, progress: nat, cost: nat)
    ensures Sum(Retain(queue), StaleWeight(progress, cost)) == Sum(queue, StaleWeight(progress, cost))
  {
    if queue != [] {
      RetainWeight(queue[1..], progress, cost);
      assert queue == [queue[0]] + queue[1..];
      if !queue[0].state.Exited? {
        assert Retain(queue) == [queue[0]] + Retain(queue[1..]);
        assert Retain(queue)[1..] == Retain(queue[1..]);
      } else {
        assert Retain(queue) == Retain(queue[1..]);
      }
    }
  }

  lemma LookLowersRank<M, L(!new)>(s: PoolRun<M, L>, i: nat)
    requires i < |s.workers| && (s.workers[i].Scanning? || (s.workers[i].Waiting? && s.workers[i].notified))
    requires s.pool.progress <= s.shared.progress
    ensures Rank(LookStep(s, i)) < Rank(s)
  {
    var t := LookStep(s, i);
    var n := |s.workers|;
    SumUpdate(s.workers, i, t.workers[i], PhaseWeight(s.shared.progress, n));
    if !s.pool.shutdown {
      var f := StaleWeight<L>(s.shared.progress, n + 6);
      RetainWeight(s.pool.queue, s.shared.progress, n + 6);
      var queue := Retain(s.pool.queue);
      var idx := FirstRunnable(queue, s.pool.progress);
      if idx < |queue| {
        SumRemove(queue, idx, f);
        assert Stale(queue[idx], s.shared.progress);
      }
    }
  }

  lemma RunLowersRank<M, L(!new)>(exec: (M, L) -> Outcome<M, L>, quanta: nat, s: PoolRun<M, L>, i: nat)
    requires i < |s.workers| && s.workers[i].Picked? && quanta > 0
    requires s.workers[i].thread.state.Running? && !s.workers[i].thread.halted
    requires RunStep(exec, quanta, s, i).shared.progress == s.shared.progress
    ensures Rank(RunStep(exec, quanta, s, i)) < Rank(s)
  {
    var t := RunStep(exec, quanta, s, i);
    RunForFacts(exec, quanta, Quantum(s.shared, s.workers[i].thread, []));
    SumUpdate(s.workers, i, t.workers[i], PhaseWeight(s.shared.progress, |s.workers|));
    assert !Stale(Settled(t.workers[i].thread, t.workers[i].epoch), s.shared.progress);
  }

  lemma ReturnLowersRank<M, L(!new)>(s: PoolRun<M, L>, i: nat)
    requires i < |s.workers| && s.workers[i].Ran? && s.pool.running > 0
    ensures Rank(ReturnStep(s, i)) < Rank(s)
  {
    var w := s.workers[i];
    var n := |s.workers|;
    var f := StaleWeight<L>(s.shared.progress, n + 6);
    SumUpdate(s.workers, i, Announcing, PhaseWeight(s.shared.progress, n));
    var back := Settled(w.thread, w.epoch);
    SumConcat(s.pool.queue + [back], w.spawned, f);
    SumConcat(s.pool.queue, [back], f);
    SumOne(back, f);
  }

  lemma NotifyLowersRank<M, L(!new)>(s: PoolRun<M, L>, i: nat)
    requires i < |s.workers| && WillNotify(s.workers[i])
    ensures Rank(NotifyStep(s, i)) < Rank(s)
  {
    var t := NotifyStep(s, i);
    var n := |s.workers|;
    var f := PhaseWeight<L>(s.shared.progress, n);
    SumUpdate(NotifyAll(s.workers), i, t.workers[i], f);
    SumGrowth(s.workers, NotifyAll(s.workers), f, 1);
  }

  /**
   The pool never spins: a step that retires no instruction lowers a rank, so
   between two retired instructions only so many steps, retries of parked
   threads included, can happen before the pool finishes or reports a deadlock.
   */
  lemma StepsWithoutProgressEnd<M, L(!new)>(exec: (M, L) -> Outcome<M, L>, quanta: nat, s: PoolRun<M, L>, i: nat)
    requires i < |s.workers| && CanStep(s.workers[i]) && Inv(exec, s) && quanta > 0
    ensures s.workers[i].Ran? ==> s.pool.running > 0
    ensures var t := Next(exec, quanta, s, i);
      t.shared.progress > s.shared.progress || (t.shared.progress == s.shared.progress && Rank(t) < Rank(s))
  {
    assert WorkerOk(exec, s.pool, s.shared, s.workers[i]);
    if s.workers[i].Picked? {
      RunForFacts(exec, quanta, Quantum(s.shared, s.workers[i].thread, []));
      if RunStep(exec, quanta, s, i).shared.progress == s.shared.progress {
        RunLowersRank(exec, quanta, s, i);
      }
    } else if s.workers[i].Ran? {
      HolderCounted(s, i);
      ReturnLowersRank(s, i);
    } else if WillNotify(s.workers[i]) {
      NotifyLowersRank(s, i);
    } else {
      LookLowersRank(s, i);
    }
  }
}
