/** Whether a thread that the cooperative scheduler holds as blocked could go on after all. */
module SchedulerWaiters {
  import opened Memory
  import opened Heaps
  import opened Threads
  import opened RunLoops
  import Laws = RunLoopLaws
  import Waiters
  import opened Schedulers
  import opened SchedulerLaws

  /** A VM over the shared state, with nothing running or queued. */
  function Vm<M>(s: Sched<M>): Machine<M> {
    VmOver(s.shared, Mirror(None), [])
  }

  predicate Settled<M>(prog: Program<M>, shared: Shared<M>, t: VmThread) {
    Waiters.Settled(prog, shared.mem, shared.channels, View(t))
  }

  ghost predicate AllSettled<M>(prog: Program<M>, s: Sched<M>) {
    forall t :: t in s.threads && t.state.Blocked? ==> Settled(prog, s.shared, t)
  }

  /** The round changed no channel word that the operand of a thread left blocked reads, and freed no such channel. */
  ghost predicate Undisturbed<M>(prog: Program<M>, s: Sched<M>, next: Sched<M>) {
    forall t :: t in s.threads && t in next.threads && t.state.Blocked? ==>
      && Waiters.Named(prog, next.shared.mem, View(t)) == Waiters.Named(prog, s.shared.mem, View(t))
      && (Waiters.Gone(prog, next.shared.mem, next.shared.channels, View(t)) ==>
        Waiters.Gone(prog, s.shared.mem, s.shared.channels, View(t)))
  }

  /** The runner of a quantum, if it ended blocked, waits on the channel its operand names, and that is there. */
  lemma {:induction false} RunnerSettled<M(!new)>(prog: Program<M>, step: Step<M>, ends: (M, Thread) -> bool,
                                                  quanta: nat, s: Sched<M>)
    requires Implements(step, prog)
    requires s.threads != [] && s.threads[0].state.Ready? && RunFor(step, ends, quanta, s).Ran?
    ensures var ran := RunFor(step, ends, quanta, s).s;
      ran.threads != [] && (ran.threads[0].state.Blocked? ==> Settled(prog, ran.shared, ran.threads[0]))
  {
    if quanta == 0 || s.threads[0].halted || ends(s.shared.mem, View(s.threads[0])) {
    } else {
      var next := StepSettled(prog, step, s);
      if next.threads[0].state.Ready? {
        RunnerSettled(prog, step, ends, quanta - 1, next);
      }
    }
  }

  lemma StepSettled<M(!new)>(prog: Program<M>, step: Step<M>, s: Sched<M>) returns (next: Sched<M>)
    requires Implements(step, prog) && s.threads != [] && s.threads[0].state.Ready? && step(s).Some?
    ensures step(s) == Some(next) && next.threads != []
    ensures next.threads[0].state.Blocked? ==> Settled(prog, next.shared, next.threads[0])
  {
    next := step(s).value;
    assert step(s) == Stepped(prog, s);
    match Execute(prog, FrontVm(s)) {
      case Blocked(ch) =>
        BlockedStep(prog, s, ch);
        Waiters.JustBlocked(prog, FrontVm(s), ch);
        assert View(s.threads[0].(state := ThreadState.Blocked(ch))) == View(s.threads[0]).(blockedOn := Some(ch));
      case Done(_) => DispatchExactly(prog, s, next);
    }
  }

  /** A thread blocked after a round was so before it, or is the runner. */
  lemma BlockedOrigin<M>(s: Sched<M>, ran: Sched<M>, next: Sched<M>, t: VmThread)
    requires Quantum(Lined(s), ran) && next == ran.(threads := HandedBack(ran.threads))
    requires t in next.threads && t.state.Blocked?
    ensures t in s.threads || t == ran.threads[0]
  {
    assert t in ran.threads;
    var k :| 0 <= k < |ran.threads| && ran.threads[k] == t;
    if k > 0 {
      assert k < |Lined(s).threads| && Lined(s).threads[k] == t;
      RetainMembers(s.threads);
      InLined(s, t);
    }
  }

  lemma InLined<M>(s: Sched<M>, t: VmThread)
    requires t in Lined(s).threads
    ensures t in Retain(s.threads)
  {
  }

  /** A round keeps every blocked thread settled if and only if it disturbs none of them. */
  lemma RoundKeepsSettled<M(!new)>(prog: Program<M>, step: Step<M>, ends: (M, Thread) -> bool, quanta: nat,
                                   s: Sched<M>, next: Sched<M>)
    requires Implements(step, prog) && Round(step, ends, quanta, s) == Continue(next) && AllSettled(prog, s)
    ensures AllSettled(prog, next) <==> Undisturbed(prog, s, next)
  {
    if Undisturbed(prog, s, next) {
      var ran := RoundUnfolds(prog, step, ends, quanta, s, next);
      RunnerSettled(prog, step, ends, quanta, Lined(s));
      forall t | t in next.threads && t.state.Blocked? ensures Settled(prog, next.shared, t) {
        BlockedOrigin(s, ran, next, t);
      }
    }
  }

  ghost predicate UndisturbedUpTo<M(!new)>(prog: Program<M>, run: seq<Sched<M>>, n: nat)
    requires n < |run|
  {
    forall i, j :: 0 <= i < j <= n && j == i + 1 ==> Undisturbed(prog, run[i], run[j])
  }

  /** Over a run: every blocked thread is settled in every state if and only if no round disturbed one. */
  lemma {:induction false} RunsSettledExactly<M(!new)>(prog: Program<M>, step: Step<M>, ends: (M, Thread) -> bool,
                                                       quanta: nat, run: seq<Sched<M>>, n: nat)
    requires Implements(step, prog) && IsRun(step, ends, quanta, run) && Initial(run[0]) && n < |run|
    ensures (forall i :: 0 <= i <= n ==> AllSettled(prog, run[i])) <==> UndisturbedUpTo(prog, run, n)
  {
    if n > 0 {
      RunsSettledExactly(prog, step, ends, quanta, run, n - 1);
      var before, after := run[n - 1], run[n];
      assert Round(step, ends, quanta, before) == Continue(after);
      if AllSettled(prog, before) {
        RoundKeepsSettled(prog, step, ends, quanta, before, after);
      }
    }
  }

  /** In every reachable state, a blocked thread would block again if and only if it was not stranded. */
  lemma WaitersBlockExactly<M(!new)>(prog: Program<M>, step: Step<M>, ends: (M, Thread) -> bool, quanta: nat,
                                     run: seq<Sched<M>>, i: nat, t: VmThread)
    requires Implements(step, prog) && IsRun(step, ends, quanta, run) && Initial(run[0]) && i < |run|
    requires t in run[i].threads && t.state.Blocked?
    ensures Laws.WouldBlock(prog, Vm(run[i]), View(t)) <==> !Waiters.Stranded(prog, Vm(run[i]), View(t))
  {
    RunsKeepInv(prog, step, ends, quanta, run, i);
    Waiters.WaiterBlocksExactly(prog, Vm(run[i]), View(t));
  }

  /** While no round disturbs one, every thread marked blocked has an operation that cannot succeed. */
  lemma WaitersBlock<M(!new)>(prog: Program<M>, step: Step<M>, ends: (M, Thread) -> bool, quanta: nat,
                              run: seq<Sched<M>>, i: nat, t: VmThread)
    requires Implements(step, prog) && IsRun(step, ends, quanta, run) && Initial(run[0]) && i < |run|
    requires UndisturbedUpTo(prog, run, i) && t in run[i].threads && t.state.Blocked?
    ensures Laws.WouldBlock(prog, Vm(run[i]), View(t))
  {
    RunsSettledExactly(prog, step, ends, quanta, run, i);
    RunsKeepInv(prog, step, ends, quanta, run, i);
    Waiters.WaiterBlocksExactly(prog, Vm(run[i]), View(t));
  }

  /** No live thread could take another step. */
  ghost predicate Stuck<M>(prog: Program<M>, s: Sched<M>) {
    forall t :: t in s.threads && !t.halted ==> Laws.WouldBlock(prog, Vm(s), View(t))
  }

  /**
   A reported deadlock is real if and only if no live thread was stranded; so it
   is while no round disturbs a blocked thread.
   */
  lemma DeadlockIsReal<M(!new)>(prog: Program<M>, step: Step<M>, ends: (M, Thread) -> bool, quanta: nat,
                                run: seq<Sched<M>>, i: nat)
    requires Implements(step, prog) && IsRun(step, ends, quanta, run) && Initial(run[0]) && i < |run|
    requires Round(step, ends, quanta, run[i]).Deadlock?
    ensures Stuck(prog, run[i]) <==> forall t :: t in run[i].threads && !t.halted ==>
      !Waiters.Stranded(prog, Vm(run[i]), View(t))
    ensures UndisturbedUpTo(prog, run, i) ==> Stuck(prog, run[i])
  {
    var s := run[i];
    SchedulerLaws.DeadlockExactly(step, ends, quanta, s);
    forall t | t in s.threads && !t.halted
      ensures Laws.WouldBlock(prog, Vm(s), View(t)) <==> !Waiters.Stranded(prog, Vm(s), View(t))
      ensures UndisturbedUpTo(prog, run, i) ==> Laws.WouldBlock(prog, Vm(s), View(t))
    {
      WaitersBlockExactly(prog, step, ends, quanta, run, i, t);
      if UndisturbedUpTo(prog, run, i) {
        WaitersBlock(prog, step, ends, quanta, run, i, t);
      }
    }
  }
}
