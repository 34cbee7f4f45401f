/** What one step and one quantum of the cooperative scheduler are, told by fields. */
module SchedulerSteps {
  import opened Memory
  import opened Heaps
  import opened Threads
  import opened RunLoops
  import Laws = RunLoopLaws
  import opened Transfers
  import opened Schedulers
  import opened SchedulerLaws

  /**
   The VM an instruction runs on: what the threads share, the front thread, and
   the others waiting where they wait.
   */
  predicate Stands<M(==)>(s: Sched<M>, m: Machine<M>)
    requires s.threads != []
  {
    && m.mem == s.shared.mem && m.channels == s.shared.channels && m.nextChannel == s.shared.nextChannel
    && m.sent == s.shared.sent && m.received == s.shared.received && !m.halted
    && m.current.(blockedOn := None) == s.threads[0].saved.(pid := s.threads[0].id, blockedOn := None)
    && |m.queue| == |s.threads| - 1
    && forall k :: 0 <= k < |m.queue| ==>
      m.queue[k].blockedOn ==
        match s.threads[k + 1].state
        case Blocked(ch) => Some(ch)
        case Ready => None
  }

  /** A waiting thread is as it was, but ready if the instruction left its place in the VM's queue ready. */
  predicate WaitersTaken(was: seq<VmThread>, queue: seq<Thread>, now: seq<VmThread>)
    requires 0 < |was| <= |now| && |queue| >= |was| - 1
  {
    forall k :: 1 <= k < |was| ==>
      now[k] == if queue[k - 1].blockedOn.None? then was[k].(state := ThreadState.Ready) else was[k]
  }

  /** The threads that the instruction added behind those in the queue follow, under new ids. */
  predicate ChildrenTaken(n: nat, firstId: nat, queue: seq<Thread>, now: seq<VmThread>)
    requires 0 < n <= |now| == |queue| + 1
  {
    forall k :: n <= k < |now| ==>
      now[k].id == firstId + (k - n) && now[k].saved == queue[k - 1] && !now[k].halted
  }

  /** What the scheduler takes over from that VM once the instruction is done. */
  ghost predicate TakesOver<M>(s: Sched<M>, m: Machine<M>, next: Sched<M>)
    requires s.threads != []
  {
    var n := |s.threads|;
    && next.shared == Shared(m.mem, m.channels, m.nextChannel, m.sent, m.received)
    && n - 1 <= |m.queue| && |next.threads| == 1 + |m.queue|
    && next.threads[0] == VmThread(s.threads[0].id, m.current, m.halted, s.threads[0].state)
    && WaitersTaken(s.threads, m.queue, next.threads)
    && ChildrenTaken(n, s.nextThreadId, m.queue, next.threads)
    && next.nextThreadId == s.nextThreadId + (|next.threads| - n)
  }

  ghost predicate Outcome<M>(s: Sched<M>, e: Execution<M>, result: Option<Sched<M>>)
    requires s.threads != []
  {
    match e
    case Fault => result.None?
    case Blocked(ch) =>
      result == Some(s.(threads := s.threads[0 := VmThread(s.threads[0].id, s.threads[0].saved, s.threads[0].halted,
                                                           ThreadState.Blocked(ch))]))
    case Done(m) => result.Some? && TakesOver(s, m, result.value)
  }

  lemma WaiterExactly(t: VmThread, blockedOn: Option<HeapId>)
    requires t.state.Ready? ==> blockedOn.None?
    ensures AfterWake(t, blockedOn) == if blockedOn.None? then t.(state := ThreadState.Ready) else t
  {
  }

  lemma WaitersExactly(was: seq<VmThread>, queue: seq<Thread>, now: seq<VmThread>)
    requires 0 < |was| <= |now| && |queue| >= |was| - 1
    requires forall k :: 1 <= k < |was| ==> now[k] == AfterWake(was[k], queue[k - 1].blockedOn)
    requires forall k :: 1 <= k < |was| && was[k].state.Ready? ==> queue[k - 1].blockedOn.None?
    ensures WaitersTaken(was, queue, now)
  {
    forall k | 1 <= k < |was|
      ensures now[k] == if queue[k - 1].blockedOn.None? then was[k].(state := ThreadState.Ready) else was[k]
    {
      WaiterExactly(was[k], queue[k - 1].blockedOn);
    }
  }

  lemma ChildrenExactly(n: nat, firstId: nat, queue: seq<Thread>, now: seq<VmThread>)
    requires 0 < n <= |now| == |queue| + 1
    requires forall k :: n <= k < |now| ==> now[k] == FromSuspended(firstId + (k - n), queue[k - 1])
    ensures ChildrenTaken(n, firstId, queue, now)
  {
  }

  lemma AbsorbedThreads(was: seq<VmThread>, firstId: nat, queue: seq<Thread>, front: VmThread, now: seq<VmThread>)
    requires 0 < |was| <= |queue| + 1
    requires now == [front] + WokenThreads(was[1..], queue) + Adopted(queue[|was| - 1..], firstId)
    ensures |now| == |queue| + 1 && now[0] == front
    ensures forall k :: 1 <= k < |was| ==> now[k] == AfterWake(was[k], queue[k - 1].blockedOn)
    ensures forall k :: |was| <= k < |now| ==> now[k] == FromSuspended(firstId + (k - |was|), queue[k - 1])
  {
    var n := |was|;
    var woken, added := WokenThreads(was[1..], queue), Adopted(queue[n - 1..], firstId);
    Joined(front, woken, added, now);
    forall k | 1 <= k < n ensures now[k] == AfterWake(was[k], queue[k - 1].blockedOn) {
      assert now[k] == woken[k - 1] && was[1..][k - 1] == was[k];
    }
    forall k | n <= k < |now| ensures now[k] == FromSuspended(firstId + (k - n), queue[k - 1]) {
      assert now[k] == added[k - n] && queue[n - 1..][k - n] == queue[k - 1];
    }
  }

  lemma DoneExactly<M>(s: Sched<M>, m: Machine<M>, next: Sched<M>)
    requires s.threads != [] && |m.queue| >= |s.threads| - 1
    requires Absorb(s, Views(s.threads[1..]), Done(m)) == Some(next)
    requires forall k :: 1 <= k < |s.threads| && s.threads[k].state.Ready? ==> m.queue[k - 1].blockedOn.None?
    ensures TakesOver(s, m, next)
  {
    var front := s.threads[0].(saved := m.current, halted := m.halted);
    AbsorbedThreads(s.threads, s.nextThreadId, m.queue, front, next.threads);
    WaitersExactly(s.threads, m.queue, next.threads);
    ChildrenExactly(|s.threads|, s.nextThreadId, m.queue, next.threads);
  }

  lemma Joined<T>(front: T, middle: seq<T>, last: seq<T>, all: seq<T>)
    requires all == [front] + middle + last
    ensures |all| == 1 + |middle| + |last| && all[0] == front
    ensures forall k :: 1 <= k < 1 + |middle| ==> all[k] == middle[k - 1]
    ensures forall k :: 1 + |middle| <= k < |all| ==> all[k] == last[k - 1 - |middle|]
  {
  }

  /**
   Each step does to the shared state and the threads what the instruction of the
   front thread does, run on a VM that holds just these.
   */
  lemma StepExactly<M(!new)>(prog: Program<M>, s: Sched<M>)
    requires Inv(prog, s) && s.threads != [] && s.threads[0].state.Ready?
    ensures var m := FrontVm(s); var e := Execute(prog, m);
      Stands(s, m) && Executes(prog, m, e) && Outcome(s, e, Stepped(prog, s))
  {
    var m := FrontVm(s);
    InvOfFront(prog, s);
    ExecuteExactly(prog, m);
    match Execute(prog, m)
    case Fault =>
    case Blocked(ch) => BlockedStep(prog, s, ch);
    case Done(after) =>
      QueueGrows(prog, m);
      ReadyStayReady(prog, s);
      DoneExactly(s, after, Stepped(prog, s).value);
  }

  lemma ReadyStayReady<M>(prog: Program<M>, s: Sched<M>)
    requires s.threads != [] && Execute(prog, FrontVm(s)).Done?
    ensures var queue := Execute(prog, FrontVm(s)).m.queue;
      && |queue| >= |s.threads| - 1
      && forall k :: 1 <= k < |s.threads| && s.threads[k].state.Ready? ==> queue[k - 1].blockedOn.None?
  {
    QueueAfter(prog, FrontVm(s));
  }

  // --- A quantum ---

  /** The front thread may take another step: it has not halted, is not blocked, and its pc is in its code. */
  predicate MayGoOn<M>(ends: (M, Thread) -> bool, s: Sched<M>) {
    s.threads != [] && !s.threads[0].halted && !s.threads[0].state.Blocked? && !ends(s.shared.mem, View(s.threads[0]))
  }

  /** One step after another, each from where the last one ended. */
  ghost predicate IsCourse<M(!new)>(step: Step<M>, ends: (M, Thread) -> bool, states: seq<Sched<M>>) {
    && states != []
    && forall i, j :: 0 <= i < j < |states| && j == i + 1 ==> GoesTo(step, ends, states[i], states[j])
  }

  ghost predicate GoesTo<M(!new)>(step: Step<M>, ends: (M, Thread) -> bool, s: Sched<M>, next: Sched<M>) {
    MayGoOn(ends, s) && step(s) == Some(next)
  }

  /** How a course of n steps may end, and in what. */
  ghost predicate EndsIn<M(!new)>(step: Step<M>, ends: (M, Thread) -> bool, quanta: nat, n: nat, last: Sched<M>,
                                  r: QuantumResult<M>)
  {
    if n == quanta || !MayGoOn(ends, last) then
      if n < quanta && last.threads != [] && !last.threads[0].halted && !last.threads[0].state.Blocked?
      then r == Ran(last.(threads := last.threads[0 := last.threads[0].(halted := true)]))
      else r == Ran(last)
    else step(last).None? && r == Failed
  }

  lemma CourseTail<M(!new)>(step: Step<M>, ends: (M, Thread) -> bool, s: Sched<M>, states: seq<Sched<M>>)
    requires IsCourse(step, ends, states) && MayGoOn(ends, s) && step(s) == Some(states[0])
    ensures IsCourse(step, ends, [s] + states)
  {
    var all := [s] + states;
    forall i, j | 0 <= i < j < |all| && j == i + 1 ensures GoesTo(step, ends, all[i], all[j]) {
      assert i > 0 ==> all[i] == states[i - 1] && all[j] == states[j - 1];
    }
  }

  /**
   A quantum is a course of steps of the front thread, at most `quanta` of them;
   it stops early only when that thread halts, blocks or runs off its code, which
   halts it, or when a step fails.
   */
  lemma {:induction false} QuantumIsCourse<M(!new)>(step: Step<M>, ends: (M, Thread) -> bool, quanta: nat, s: Sched<M>)
    returns (states: seq<Sched<M>>)
    requires s.threads != [] && s.threads[0].state.Ready?
    ensures IsCourse(step, ends, states) && states[0] == s && |states| <= quanta + 1
    ensures EndsIn(step, ends, quanta, |states| - 1, states[|states| - 1], RunFor(step, ends, quanta, s))
    decreases quanta
  {
    if quanta == 0 || !MayGoOn(ends, s) || step(s).None? {
      states := [s];
    } else {
      var next := step(s).value;
      var rest := [next];
      if next.threads != [] && next.threads[0].state.Ready? {
        rest := QuantumIsCourse(step, ends, quanta - 1, next);
      }
      CourseTail(step, ends, s, rest);
      states := [s] + rest;
    }
  }
}
