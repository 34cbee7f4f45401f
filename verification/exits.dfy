/** Threads that exit in the main run loop, and the exit that is lost at the end of a quantum. */
module Exits {
  import opened Memory
  import opened Heaps
  import opened Threads
  import opened RunLoops
  import opened RunLoopLaws

  lemma ExitsOnlyOfHalted<M>(prog: Program<M>, m: Machine<M>)
    requires m.status == Running && !m.halted
    ensures Turn(prog, m).exits == m.exits
  {
    if Execute(prog, m).Done? {
      DoneStatus(prog, m);
    }
  }

  /** A thread that halted in time is recorded by the next turn, which leaves only the others. */
  lemma ExitRecorded<M>(prog: Program<M>, m: Machine<M>)
    requires m.status == Running && m.halted
    ensures Turn(prog, m).exits == m.exits + [m.current.pid]
    ensures Living(Turn(prog, m)) == multiset(BareAll(m.queue))
  {
    TurnLosesNoThread(prog, m);
  }

  /** A thread that halted at a switch is saved as ready: queued, or at once resumed when no other is ready. */
  lemma ExitSwitched<M>(m: Machine<M>)
    ensures var after := Resumed(Suspended(m, None));
      && !after.halted && after.exits == m.exits
      && if FirstReady(m.queue) < |m.queue| then Bare(m.current) in after.queue else after.current == Bare(m.current)
  {
    ReadyKept(m, None);
    var q := Suspended(m, None).queue;
    var k := FirstReady(q);
    assert q[|m.queue|] == Bare(m.current);
    if FirstReady(m.queue) < |m.queue| {
      assert q[FirstReady(m.queue)] == m.queue[FirstReady(m.queue)];
      assert k < |m.queue| && q[k + 1..][|m.queue| - k - 1] == Bare(m.current);
      assert Bare(m.current) in q[k + 1..];
    } else {
      assert forall j :: 0 <= j < |m.queue| ==> q[j] == m.queue[j];
    }
  }

  /**
   A thread that halts leaves its exit record on the next turn, and is gone, if
   and only if its last instruction did not also end the quantum with other
   threads waiting. In that case no record is made, and the thread is queued as
   ready, or runs on past its exit when no other thread is ready.
   */
  lemma ExitRecordedExactly<M>(prog: Program<M>, m: Machine<M>)
    requires m.status == Running && !m.halted
    requires Execute(prog, m).Done? && Execute(prog, m).m.halted
    ensures Turn(prog, m).status == Running
    ensures !SwitchedOut(m, Execute(prog, m).m) <==>
      Turn(prog, Turn(prog, m)).exits == m.exits + [Execute(prog, m).m.current.pid]
    ensures !SwitchedOut(m, Execute(prog, m).m) ==>
      Living(Turn(prog, Turn(prog, m))) == multiset(BareAll(Execute(prog, m).m.queue))
    ensures SwitchedOut(m, Execute(prog, m).m) ==>
      var next := Execute(prog, m).m; var after := Turn(prog, m);
      && !after.halted
      && if FirstReady(next.queue) < |next.queue| then Bare(next.current) in after.queue
         else after.current == Bare(next.current)
  {
    var next := Execute(prog, m).m;
    DoneStatus(prog, m);
    var after := Turn(prog, m);
    if SwitchedOut(m, next) {
      ExitSwitched(next.(quantum := 0));
      assert after.exits == m.exits;
      ExitsOnlyOfHalted(prog, after);
    } else {
      assert after == next.(quantum := next.quantum + 1);
      ExitRecorded(prog, after);
    }
  }

  // --- A run that loses an exit ---

  function At(pid: int, pc: nat): Thread {
    SuspendedThread(FrameImage([], 0, 0), [], pc, pid, [], "", None, [], None)
  }

  /** Thread 1 spawns thread 2, computes to the end of its quantum, and exits there; thread 2 goes on for ever. */
  function Instruction(t: Thread): Instr<()> {
    if t.pid != 1 then Compute((_: ()) => Effect((), t, false, [], {}))
    else if t.pc == 0 then Compute((_: ()) => Effect((), At(1, 1), false, [At(2, 0)], {}))
    else Compute((_: ()) => Effect((), At(1, t.pc + 1), t.pc + 1 == THREAD_QUANTUM, [], {}))
  }

  function Exiting(): Program<()> {
    (t: Thread) => Instruction(t)
  }

  function Start(): Machine<()> {
    Machine((), At(1, 0), false, [], map[], HEAP_ID_BASE, 0, [], map[], map[], Running)
  }

  /** After n instructions of the first thread. */
  function Computed(n: nat): Machine<()> {
    Start().(current := At(1, n), queue := [At(2, 0)], quantum := n)
  }

  lemma ComputingTurn(n: nat)
    requires n + 1 < THREAD_QUANTUM
    ensures Turn(Exiting(), if n == 0 then Start() else Computed(n)) == Computed(n + 1)
  {
    var m := if n == 0 then Start() else Computed(n);
    assert Bare(m.current) == At(1, n);
    assert Execute(Exiting(), m).m.queue == [At(2, 0)];
  }

  lemma {:induction false} ComputingRun(n: nat) returns (run: seq<Machine<()>>)
    requires 0 < n < THREAD_QUANTUM
    ensures TakesTurns(Exiting(), run) && |run| == n + 1 && run[n] == Computed(n)
  {
    if n == 1 {
      run := [Start()];
      ComputingTurn(0);
      RunExtends(Exiting(), run, Start(), Computed(1));
      run := run + [Computed(1)];
    } else {
      run := ComputingRun(n - 1);
      ComputingTurn(n - 1);
      RunExtends(Exiting(), run, Computed(n - 1), Computed(n));
      run := run + [Computed(n)];
    }
  }

  lemma LastTurn(n: nat)
    requires n + 1 == THREAD_QUANTUM
    ensures Execute(Exiting(), Computed(n)).Done? && Execute(Exiting(), Computed(n)).m.halted
    ensures Turn(Exiting(), Computed(n)) == Start().(current := At(2, 0), queue := [At(1, n + 1)])
  {
    var m := Computed(n);
    assert Bare(m.current) == At(1, n);
    var next := Execute(Exiting(), m).m;
    assert next.queue == [At(2, 0)];
    var q := Suspended(next.(quantum := 0), None).queue;
    assert q == [At(2, 0), At(1, n + 1)] && FirstReady(q) == 0;
    assert q[1..] + q[..0] == [At(1, n + 1)];
  }

  /** From the start of this program: the first thread has exited, is queued as ready, and no exit is recorded. */
  lemma ExitLost() returns (run: seq<Machine<()>>)
    ensures TakesTurns(Exiting(), run) && |run| == THREAD_QUANTUM + 1
    ensures var before, after := run[THREAD_QUANTUM - 1], run[THREAD_QUANTUM];
      && Execute(Exiting(), before).Done? && Execute(Exiting(), before).m.halted && before.current.pid == 1
      && after.queue == [At(1, THREAD_QUANTUM)] && Ready(after.queue[0]) && !after.halted && after.exits == []
  {
    var n := THREAD_QUANTUM - 1;
    run := ComputingRun(n);
    LastTurn(n);
    var last := Turn(Exiting(), Computed(n));
    RunExtends(Exiting(), run, Computed(n), last);
    run := run + [last];
  }
}
