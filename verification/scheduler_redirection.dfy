/** The run of `Redirection` under the cooperative scheduler: it too reports a false deadlock. */
module SchedulerRedirection {
  import opened Memory
  import opened Heaps
  import opened Threads
  import opened RunLoops
  import Laws = RunLoopLaws
  import opened Redirection
  import opened Schedulers
  import SchedulerLaws
  import SchedulerWaiters

  function Shares(word: HeapId, channels: Channels, next: HeapId, sent: map<HeapId, seq<Buffer>>): Shared<HeapId> {
    Shared(word, channels, next, sent, map[])
  }

  function First(pc: nat): VmThread {
    VmThread(1, At(1, pc), false, ThreadState.Ready)
  }

  function Second(pc: nat): VmThread {
    VmThread(2, At(2, pc), false, ThreadState.Ready)
  }

  function Parked(): VmThread {
    First(3).(state := ThreadState.Blocked(FIRST))
  }

  /** The states of the first quantum, which the first thread runs. */
  function Early(k: nat): Sched<HeapId>
    requires k < 5
  {
    match k
    case 0 => Sched(Shares(NIL, map[], FIRST, map[]), [First(0)], 2)
    case 1 => Sched(Shares(NIL, map[FIRST := Empty], SECOND, map[]), [First(1)], 2)
    case 2 => Sched(Shares(NIL, BOTH_EMPTY, SECOND + 1, map[]), [First(2)], 2)
    case 3 => Sched(Shares(FIRST, BOTH_EMPTY, SECOND + 1, map[]), [First(3), Second(5)], 3)
    case 4 => Sched(Shares(FIRST, BOTH_EMPTY, SECOND + 1, map[]), [Parked(), Second(5)], 3)
  }

  /** The states of the second, which the second thread runs. */
  function Late(k: nat): Sched<HeapId>
    requires k < 4
  {
    match k
    case 0 => Sched(Shares(FIRST, BOTH_EMPTY, SECOND + 1, map[]), [Second(5), Parked()], 3)
    case 1 => Sched(Shares(FIRST, SECOND_FULL, SECOND + 1, map[SECOND := [TOKEN]]), [Second(6), Parked()], 3)
    case 2 => Sched(Shares(SECOND, SECOND_FULL, SECOND + 1, map[SECOND := [TOKEN]]), [Second(7), Parked()], 3)
    case 3 => Sched(Shares(SECOND, SECOND_FULL, SECOND + 1, map[SECOND := [TOKEN]]),
      [Second(7).(halted := true), Parked()], 3)
  }

  function Last(): Sched<HeapId> {
    Late(3).(threads := [Parked()])
  }

  function NeverEnds(): (HeapId, Thread) -> bool {
    (_: HeapId, _: Thread) => false
  }

  lemma ViewOf(t: VmThread)
    requires t.saved.pid == t.id && t.saved.blockedOn.None?
    ensures Bare(View(t)) == t.saved
  {
  }

  /** A step that leaves the VM as `m`, with the waiting threads and the children as given. */
  lemma DoneStep(s: Sched<HeapId>, m: Machine<HeapId>, rest: seq<VmThread>, children: seq<VmThread>)
    requires s.threads != [] && Execute(Redirecting(), SchedulerLaws.FrontVm(s)) == Done(m)
    requires |m.queue| == |s.threads| - 1 + |children| && rest == WokenThreads(s.threads[1..], m.queue)
    requires children == Adopted(m.queue[|s.threads| - 1..], s.nextThreadId)
    ensures Stepped(Redirecting(), s) ==
      Some(Sched(SharedOf(m), [s.threads[0].(saved := m.current, halted := m.halted)] + rest + children,
        s.nextThreadId + |children|))
  {
  }

  lemma MakeFirst()
    ensures Stepped(Redirecting(), Early(0)) == Some(Early(1))
  {
    ViewOf(First(0));
    var m := VmOver(Early(1).shared, At(1, 1), []);
    assert Early(0).threads[1..] == [];
    assert Execute(Redirecting(), SchedulerLaws.FrontVm(Early(0))) == Done(m);
    DoneStep(Early(0), m, [], []);
    assert [First(1)] + [] + [] == Early(1).threads;
  }

  lemma MakeSecond()
    ensures Stepped(Redirecting(), Early(1)) == Some(Early(2))
  {
    ViewOf(First(1));
    var m := VmOver(Early(2).shared, At(1, 2), []);
    assert Early(1).threads[1..] == [];
    assert map[FIRST := Empty][SECOND := Empty] == BOTH_EMPTY;
    assert Execute(Redirecting(), SchedulerLaws.FrontVm(Early(1))) == Done(m);
    DoneStep(Early(1), m, [], []);
    assert [First(2)] + [] + [] == Early(2).threads;
  }

  lemma Spawning(m: Machine<HeapId>)
    requires Bare(m.current) == At(1, 2) && m.queue == []
    ensures Execute(Redirecting(), m) ==
      Done(m.(mem := FIRST, current := At(1, 3), halted := false, queue := [At(2, 5)]))
  {
    assert Bare(At(2, 5)) == At(2, 5);
  }

  lemma Spawn()
    ensures Stepped(Redirecting(), Early(2)) == Some(Early(3))
  {
    ViewOf(First(2));
    var vm := SchedulerLaws.FrontVm(Early(2));
    Spawning(vm);
    DoneAlone(Early(2), vm.(mem := FIRST, current := At(1, 3), queue := [At(2, 5)]));
    SecondAdopted();
  }

  lemma NoneWoken(queue: seq<Thread>)
    ensures WokenThreads([], queue) == []
  {
  }

  lemma NothingBetween(front: VmThread, children: seq<VmThread>)
    ensures [front] + [] + children == [front] + children
  {
  }

  /** The same when no other thread waits. */
  lemma DoneAlone(s: Sched<HeapId>, m: Machine<HeapId>)
    requires |s.threads| == 1 && Execute(Redirecting(), SchedulerLaws.FrontVm(s)) == Done(m)
    ensures Stepped(Redirecting(), s) ==
      Some(Sched(SharedOf(m),
                 [s.threads[0].(saved := m.current, halted := m.halted)] + Adopted(m.queue, s.nextThreadId),
                 s.nextThreadId + |m.queue|))
  {
    var children := Adopted(m.queue, s.nextThreadId);
    assert m.queue[|s.threads| - 1..] == m.queue;
    assert s.threads[1..] == [];
    NoneWoken(m.queue);
    DoneStep(s, m, [], children);
    NothingBetween(s.threads[0].(saved := m.current, halted := m.halted), children);
  }

  lemma SecondAdopted()
    ensures [First(3)] + Adopted([At(2, 5)], 2) == Early(3).threads
  {
  }

  lemma Park()
    ensures Stepped(Redirecting(), Early(3)) == Some(Early(4))
  {
    ViewOf(First(3));
    assert Execute(Redirecting(), SchedulerLaws.FrontVm(Early(3))) == Execution<HeapId>.Blocked(FIRST);
    SchedulerLaws.BlockedStep(Redirecting(), Early(3), FIRST);
    assert Early(3).threads[0 := Parked()] == Early(4).threads;
  }

  lemma Deliver()
    ensures Stepped(Redirecting(), Late(0)) == Some(Late(1))
  {
    ViewOf(Second(5));
    var m := VmOver(Late(1).shared, At(2, 6), [View(Parked())]);
    assert BOTH_EMPTY[SECOND := Full(TOKEN)] == SECOND_FULL;
    LogOfOne();
    assert Late(0).threads[1..] == [Parked()];
    var vm := SchedulerLaws.FrontVm(Late(0));
    assert vm.queue == [View(Parked())] == Woken(vm.queue, SECOND);
    assert Execute(Redirecting(), vm) == Done(m);
    DoneStep(Late(0), m, [Parked()], []);
    assert [Second(6)] + [Parked()] + [] == Late(1).threads;
  }

  lemma Move()
    ensures Stepped(Redirecting(), Late(1)) == Some(Late(2))
  {
    ViewOf(Second(6));
    var m := VmOver(Late(2).shared, At(2, 7), [View(Parked())]);
    assert Late(1).threads[1..] == [Parked()];
    var vm := SchedulerLaws.FrontVm(Late(1));
    assert vm.queue == [View(Parked())];
    assert Execute(Redirecting(), vm) == Done(m);
    DoneStep(Late(1), m, [Parked()], []);
    assert [Second(7)] + [Parked()] + [] == Late(2).threads;
  }

  lemma Exit()
    ensures Stepped(Redirecting(), Late(2)) == Some(Late(3))
  {
    ViewOf(Second(7));
    var m := VmOver(Late(3).shared, At(2, 7), [View(Parked())]).(halted := true);
    assert Late(2).threads[1..] == [Parked()];
    var vm := SchedulerLaws.FrontVm(Late(2));
    assert vm.queue == [View(Parked())];
    assert Execute(Redirecting(), vm) == Done(m);
    DoneStep(Late(2), m, [Parked()], []);
    assert [Second(7).(halted := true)] + [Parked()] + [] == Late(3).threads;
  }

  lemma QuantumGoesOn(step: Step<HeapId>, quanta: nat, s: Sched<HeapId>, next: Sched<HeapId>)
    requires quanta > 0 && s.threads != [] && !s.threads[0].halted && step(s) == Some(next) && next.threads != []
    ensures RunFor(step, NeverEnds(), quanta, s) ==
      if next.threads[0].state.Blocked? then Ran(next) else RunFor(step, NeverEnds(), quanta - 1, next)
  {
  }

  lemma FirstQuantum(step: Step<HeapId>, quanta: nat)
    requires quanta >= 4 && forall k :: 0 <= k < 4 ==> step(Early(k)) == Some(Early(k + 1))
    ensures RunFor(step, NeverEnds(), quanta, Early(0)) == Ran(Early(4))
  {
    QuantumGoesOn(step, quanta, Early(0), Early(1));
    QuantumGoesOn(step, quanta - 1, Early(1), Early(2));
    QuantumGoesOn(step, quanta - 2, Early(2), Early(3));
    QuantumGoesOn(step, quanta - 3, Early(3), Early(4));
  }

  lemma SecondQuantum(step: Step<HeapId>, quanta: nat)
    requires quanta >= 4 && forall k :: 0 <= k < 3 ==> step(Late(k)) == Some(Late(k + 1))
    ensures RunFor(step, NeverEnds(), quanta, Late(0)) == Ran(Late(3))
  {
    QuantumGoesOn(step, quanta, Late(0), Late(1));
    QuantumGoesOn(step, quanta - 1, Late(1), Late(2));
    QuantumGoesOn(step, quanta - 2, Late(2), Late(3));
  }

  lemma FirstRound(step: Step<HeapId>, quanta: nat)
    requires RunFor(step, NeverEnds(), quanta, Early(0)) == Ran(Early(4))
    ensures Round(step, NeverEnds(), quanta, Early(0)) == Continue(Late(0))
  {
    assert Retain(Early(0).threads) == [First(0)] && Lined(Early(0)) == Early(0);
    assert HandedBack(Early(4).threads) == Late(0).threads;
  }

  lemma SecondRound(step: Step<HeapId>, quanta: nat)
    requires RunFor(step, NeverEnds(), quanta, Late(0)) == Ran(Late(3))
    ensures Round(step, NeverEnds(), quanta, Late(0)) == Continue(Last())
  {
    assert Late(0).threads[1..] == [Parked()];
    assert Retain(Late(0).threads) == Late(0).threads && Lined(Late(0)) == Late(0);
    assert HandedBack(Late(3).threads) == [Parked()];
  }

  lemma Steps(step: Step<HeapId>)
    requires Implements(step, Redirecting())
    ensures forall k :: 0 <= k < 4 ==> step(Early(k)) == Some(Early(k + 1))
    ensures forall k :: 0 <= k < 3 ==> step(Late(k)) == Some(Late(k + 1))
  {
    MakeFirst();
    MakeSecond();
    Spawn();
    Park();
    Deliver();
    Move();
    Exit();
  }

  /** After two rounds the only thread left is reported deadlocked, though it could receive. */
  lemma FalseDeadlock(step: Step<HeapId>, quanta: nat) returns (run: seq<Sched<HeapId>>)
    requires Implements(step, Redirecting()) && quanta >= 4
    ensures SchedulerLaws.IsRun(step, NeverEnds(), quanta, run) && |run| == 3 && SchedulerLaws.Initial(run[0])
    ensures Round(step, NeverEnds(), quanta, run[2]).Deadlock?
    ensures run[2].threads == [Parked()]
    ensures Execute(Redirecting(), SchedulerWaiters.Vm(run[2]).(current := View(Parked()))).Done?
    ensures !SchedulerWaiters.Stuck(Redirecting(), run[2])
  {
    Steps(step);
    FirstQuantum(step, quanta);
    FirstRound(step, quanta);
    SecondQuantum(step, quanta);
    SecondRound(step, quanta);
    run := [Early(0), Late(0), Last()];
    assert Retain(Last().threads) == [Parked()];
    CouldReceiveParked();
  }

  lemma CouldReceiveParked()
    ensures Execute(Redirecting(), SchedulerWaiters.Vm(Last()).(current := View(Parked()))).Done?
    ensures !SchedulerWaiters.Stuck(Redirecting(), Last())
  {
    assert Bare(View(Parked())) == At(1, 3);
    assert Parked() in Last().threads;
    assert !Laws.WouldBlock(Redirecting(), SchedulerWaiters.Vm(Last()), View(Parked()));
  }
}
