/** In what order the main loop gives its threads their turns, and how soon. */
module RunOrder {
  import opened Memory
  import opened Heaps
  import opened Threads
  import opened RunLoops
  import opened RunLoopLaws

  /** Of the threads `q` in line, the first ready one runs; those before it go behind all the others. */
  ghost predicate HandsTo(q: seq<Thread>, k: nat, current: Thread, queue: seq<Thread>) {
    && k < |q| && q[k].blockedOn.None? && (forall i :: 0 <= i < k ==> q[i].blockedOn.Some?)
    && current == q[k] && |queue| == |q| - 1
    && (forall i :: k < i < |q| ==> queue[i - k - 1] == q[i])
    && (forall i :: 0 <= i < k ==> queue[|q| - 1 - k + i] == q[i])
  }

  /** Nothing changed but that the first ready thread of `q` runs. */
  ghost predicate Switched<M>(m: Machine<M>, q: seq<Thread>, after: Machine<M>) {
    && after == m.(current := after.current, halted := false, queue := after.queue)
    && exists k: nat :: HandsTo(q, k, after.current, after.queue)
  }

  predicate AllBlocked(q: seq<Thread>) {
    forall i :: 0 <= i < |q| ==> q[i].blockedOn.Some?
  }

  lemma RotationHands(q: seq<Thread>, k: nat)
    requires k < |q| && Ready(q[k]) && forall i :: 0 <= i < k ==> !Ready(q[i])
    ensures HandsTo(q, k, q[k], q[k + 1..] + q[..k])
  {
  }

  lemma ResumedSwitches<M>(m: Machine<M>)
    requires !AllBlocked(m.queue)
    ensures Switched(m, m.queue, Resumed(m))
  {
    RotationHands(m.queue, FirstReady(m.queue));
  }

  /** A halted thread is recorded; then the next one runs, unless there is none or none is ready. */
  ghost predicate AfterHalt<M>(m: Machine<M>, after: Machine<M>) {
    var left := m.(exits := m.exits + [m.current.pid]);
    if m.queue == [] then after == left.(status := Finished)
    else if AllBlocked(m.queue) then after == left.(status := Deadlock)
    else Switched(left, m.queue, after)
  }

  /** A thread that cannot go on is queued, and waits; with no one else ready that is a deadlock. */
  ghost predicate AfterBlock<M>(m: Machine<M>, ch: HeapId, after: Machine<M>) {
    if AllBlocked(m.queue) then after == m.(status := Deadlock)
    else Switched(m, m.queue + [m.current.(blockedOn := Some(ch))], after)
  }

  /** The thread goes on, but behind all the others once it has had its quantum. */
  ghost predicate AfterStep<M>(next: Machine<M>, after: Machine<M>) {
    if next.quantum + 1 < THREAD_QUANTUM || next.queue == [] then after == next.(quantum := next.quantum + 1)
    else Switched(next.(quantum := 0), next.queue + [next.current.(blockedOn := None)], after)
  }

  /** What each turn of the loop comes to. */
  lemma TurnExactly<M>(prog: Program<M>, m: Machine<M>)
    requires m.status == Running
    ensures m.halted ==> AfterHalt(m, Turn(prog, m))
    ensures !m.halted && Execute(prog, m).Fault? ==> Turn(prog, m) == m.(status := Faulted)
    ensures !m.halted && Execute(prog, m).Blocked? ==> AfterBlock(m, Execute(prog, m).channel, Turn(prog, m))
    ensures !m.halted && Execute(prog, m).Done? ==> AfterStep(Execute(prog, m).m, Turn(prog, m))
  {
    if m.halted {
      HaltTurn(prog, m);
    } else {
      match Execute(prog, m)
      case Fault =>
      case Blocked(ch) => BlockTurn(prog, m, ch);
      case Done(next) => StepTurn(prog, m, next);
    }
  }

  lemma HaltTurn<M>(prog: Program<M>, m: Machine<M>)
    requires m.status == Running && m.halted
    ensures AfterHalt(m, Turn(prog, m))
  {
    if !AllBlocked(m.queue) {
      ResumedSwitches(m.(exits := m.exits + [m.current.pid]));
    }
  }

  lemma BlockTurn<M>(prog: Program<M>, m: Machine<M>, ch: HeapId)
    requires m.status == Running && !m.halted && Execute(prog, m) == Execution<M>.Blocked(ch)
    ensures AfterBlock(m, ch, Turn(prog, m))
  {
    if !AllBlocked(m.queue) {
      var i :| 0 <= i < |m.queue| && !m.queue[i].blockedOn.Some?;
      assert !Suspended(m, Some(ch)).queue[i].blockedOn.Some?;
      ResumedSwitches(Suspended(m, Some(ch)));
    }
  }

  lemma StepTurn<M>(prog: Program<M>, m: Machine<M>, next: Machine<M>)
    requires m.status == Running && !m.halted && Execute(prog, m) == Done(next)
    ensures AfterStep(next, Turn(prog, m))
  {
    if next.quantum + 1 >= THREAD_QUANTUM && next.queue != [] {
      var q := Suspended(next.(quantum := 0), None).queue;
      assert !q[|q| - 1].blockedOn.Some?;
      ResumedSwitches(Suspended(next.(quantum := 0), None));
    }
  }

  // --- How soon a ready thread runs ---

  lemma SelectingKeepsReady<M>(m: Machine<M>, entries: seq<AltEntry<M>>, chosen: (M, nat, Buffer) -> (M, Thread),
                               raise: Raise<M>, otherwise: Execution<M>, p: nat)
    requires p < |m.queue| && Ready(m.queue[p]) && Selecting(m, entries, chosen, raise, otherwise).Done?
    requires otherwise.Done? ==> otherwise.m.queue == m.queue
    ensures var next := Selecting(m, entries, chosen, raise, otherwise).m;
      p < |next.queue| && next.queue[p] == m.queue[p]
  {
  }

  /** An instruction leaves the ready threads where they are in line. */
  lemma ExecuteKeepsReady<M>(prog: Program<M>, m: Machine<M>, p: nat)
    requires p < |m.queue| && Ready(m.queue[p]) && Execute(prog, m).Done?
    ensures var next := Execute(prog, m).m; p < |next.queue| && next.queue[p] == m.queue[p]
  {
    match prog(Bare(m.current)) {
      case Alt(entries, chosen, raise) =>
        SelectingKeepsReady(m, entries, chosen, raise, Execution<M>.Blocked(NIL), p);
      case NbAlt(entries, chosen, none, raise) =>
        SelectingKeepsReady(m, entries, chosen, raise, Done(m.(current := Bare(none))), p);
      case _ =>
    }
  }

  /** At most so many turns before the thread at place `p` in line runs. */
  function Wait<M>(m: Machine<M>, p: nat): nat {
    p * THREAD_QUANTUM + if m.quantum < THREAD_QUANTUM then THREAD_QUANTUM - m.quantum else 1
  }

  /** The thread runs, or stands at a place from which it has fewer turns to wait. */
  ghost predicate Nearer<M>(m: Machine<M>, p: nat, after: Machine<M>)
    requires p < |m.queue|
  {
    || after.status == Faulted
    || after.current == m.queue[p]
    || exists q: nat :: Place(m, p, after, q)
  }

  ghost predicate Place<M>(m: Machine<M>, p: nat, after: Machine<M>, q: nat)
    requires p < |m.queue|
  {
    && after.status == Running && q < |after.queue| && after.queue[q] == m.queue[p]
    && Wait(after, q) < Wait(m, p)
  }

  lemma SwitchMovesUp<M>(m: Machine<M>, p: nat, q: seq<Thread>, after: Machine<M>, k: nat)
    requires p < |m.queue| && Ready(m.queue[p]) && p < |q| && q[p] == m.queue[p] && m.status == after.status == Running
    requires HandsTo(q, k, after.current, after.queue) && (after.quantum == m.quantum || after.quantum == 0)
    ensures Nearer(m, p, after)
  {
    if k < p {
      assert after.queue[p - k - 1] == m.queue[p];
      assert Place(m, p, after, p - k - 1);
    }
  }

  lemma TurnBringsNearer<M>(prog: Program<M>, m: Machine<M>, p: nat)
    requires m.status == Running && p < |m.queue| && Ready(m.queue[p])
    ensures Nearer(m, p, Turn(prog, m))
  {
    TurnExactly(prog, m);
    var after := Turn(prog, m);
    assert !AllBlocked(m.queue);
    if m.halted {
      var k: nat :| HandsTo(m.queue, k, after.current, after.queue);
      SwitchMovesUp(m, p, m.queue, after, k);
    } else {
      match Execute(prog, m)
      case Fault =>
      case Blocked(ch) =>
        var q := m.queue + [m.current.(blockedOn := Some(ch))];
        var k: nat :| HandsTo(q, k, after.current, after.queue);
        SwitchMovesUp(m, p, q, after, k);
      case Done(next) =>
        DoneStatus(prog, m);
        ExecuteKeepsReady(prog, m, p);
        StepBringsNearer(m, p, next, after);
    }
  }

  lemma StepBringsNearer<M>(m: Machine<M>, p: nat, next: Machine<M>, after: Machine<M>)
    requires m.status == next.status == Running && p < |m.queue| && Ready(m.queue[p])
    requires next.quantum == m.quantum && p < |next.queue| && next.queue[p] == m.queue[p] && AfterStep(next, after)
    ensures Nearer(m, p, after)
  {
    if next.quantum + 1 < THREAD_QUANTUM {
      assert Place(m, p, after, p);
    } else {
      var q := next.queue + [next.current.(blockedOn := None)];
      var k: nat :| HandsTo(q, k, after.current, after.queue);
      SwitchMovesUp(m, p, q, after, k);
    }
  }

  /** Turn after turn, from any state. */
  ghost predicate Turns<M(!new)>(prog: Program<M>, run: seq<Machine<M>>) {
    run != [] && forall i, j :: 0 <= i < j < |run| && j == i + 1 ==> TakesTurn(prog, run[i], run[j])
  }

  lemma TurnsTail<M(!new)>(prog: Program<M>, run: seq<Machine<M>>)
    requires Turns(prog, run) && |run| > 1
    ensures TakesTurn(prog, run[0], run[1]) && Turns(prog, run[1..])
  {
    var rest := run[1..];
    forall i, j | 0 <= i < j < |rest| && j == i + 1 ensures TakesTurn(prog, rest[i], rest[j]) {
      assert TakesTurn(prog, run[i + 1], run[j + 1]);
    }
  }

  /**
   No ready thread is passed over: the one at place p in line runs within
   (p + 1) quanta of turns, whatever the others do, or the run ends in a fault.
   */
  lemma {:induction false} RunsWithin<M(!new)>(prog: Program<M>, run: seq<Machine<M>>, p: nat) returns (n: nat)
    requires Turns(prog, run) && p < |run[0].queue| && Ready(run[0].queue[p]) && |run| > (p + 1) * THREAD_QUANTUM
    ensures n <= (p + 1) * THREAD_QUANTUM
    ensures run[n].current == run[0].queue[p] || run[n].status == Faulted
  {
    n := RunsWithinWait(prog, run, p);
  }

  lemma {:induction false} RunsWithinWait<M(!new)>(prog: Program<M>, run: seq<Machine<M>>, p: nat) returns (n: nat)
    requires Turns(prog, run) && p < |run[0].queue| && Ready(run[0].queue[p]) && |run| > Wait(run[0], p)
    ensures n <= Wait(run[0], p) && n < |run|
    ensures run[n].current == run[0].queue[p] || run[n].status == Faulted
    decreases |run|
  {
    TurnsTail(prog, run);
    TurnBringsNearer(prog, run[0], p);
    if run[1].status == Faulted || run[1].current == run[0].queue[p] {
      n := 1;
    } else {
      var q: nat :| Place(run[0], p, run[1], q);
      var later := RunsWithinWait(prog, run[1..], q);
      n := later + 1;
    }
  }
}
