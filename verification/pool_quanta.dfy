/** What a quantum of the pool is: a course of instructions, each starting where the one before it ended. */
module PoolQuanta {
  import opened Pools
  import opened PoolRuns

  /** The memory and the thread's context before each instruction of a quantum, and after the last. */
  datatype Course<M, L> = Course(mems: seq<M>, locals: seq<L>)

  ghost predicate Shaped<M, L>(c: Course<M, L>) {
    c.mems != [] && |c.mems| == |c.locals|
  }

  /** How many instructions retired. */
  function Length<M, L>(c: Course<M, L>): nat
    requires Shaped(c)
  {
    |c.mems| - 1
  }

  function At<M, L>(exec: (M, L) -> Outcome<M, L>, c: Course<M, L>, i: nat): Outcome<M, L>
    requires Shaped(c) && i < |c.mems|
  {
    exec(c.mems[i], c.locals[i])
  }

  /** Each instruction retired, left what the next one found, and halted at most at the end. */
  ghost predicate Succeeds<M, L>(exec: (M, L) -> Outcome<M, L>, c: Course<M, L>, i: nat, j: nat)
    requires Shaped(c) && i < |c.mems| && j < |c.mems|
  {
    var o := At(exec, c, i);
    && o.Retired? && c.mems[j] == o.mem && c.locals[j] == o.local
    && (o.halted ==> j == Length(c))
  }

  ghost predicate IsCourse<M(!new), L(!new)>(exec: (M, L) -> Outcome<M, L>, c: Course<M, L>) {
    && Shaped(c)
    && forall i, j :: 0 <= i < j < |c.mems| && j == i + 1 ==> Succeeds(exec, c, i, j)
  }

  /** The last retired instruction, if there was one, halted the thread. */
  predicate Halts<M, L>(exec: (M, L) -> Outcome<M, L>, c: Course<M, L>)
    requires Shaped(c)
  {
    Length(c) > 0 && At(exec, c, Length(c) - 1).Retired? && At(exec, c, Length(c) - 1).halted
  }

  /** The children of the first `n` instructions, in order. */
  function Children<M, L>(exec: (M, L) -> Outcome<M, L>, c: Course<M, L>, n: nat): seq<L>
    requires Shaped(c) && n <= Length(c)
  {
    if n == 0 then []
    else
      Children(exec, c, n - 1) +
        match At(exec, c, n - 1)
        case Retired(_, _, _, children) => children
        case Parked(_) => []
        case OffEnd => []
  }

  /** The course stops for a reason: the quantum is used up, or the thread halted, parked, or ran off its code. */
  predicate Stops<M, L>(exec: (M, L) -> Outcome<M, L>, quanta: nat, c: Course<M, L>)
    requires Shaped(c)
  {
    Length(c) == quanta || Halts(exec, c) || !At(exec, c, Length(c)).Retired?
  }

  /** The thread and shared state that a course leaves, each field by itself. */
  ghost predicate Leaves<M, L>(exec: (M, L) -> Outcome<M, L>, quanta: nat, was: VmThread<L>, shared: Shared<M>,
                               c: Course<M, L>, r: Quantum<M, L>)
    requires Shaped(c)
  {
    var n := Length(c);
    var children := Children(exec, c, n);
    var goesOn := n < quanta && !Halts(exec, c);
    && r.shared.mem == c.mems[n] && r.thread.local == c.locals[n]
    && r.shared.progress == shared.progress + n
    && r.shared.nextThreadId == shared.nextThreadId + |children|
    && r.thread.id == was.id && r.thread.blockedAt == was.blockedAt
    && (r.thread.halted <==> Halts(exec, c) || (goesOn && At(exec, c, n).OffEnd?))
    && r.thread.state == (if goesOn && At(exec, c, n).Parked? then Blocked(At(exec, c, n).channel) else was.state)
    && |r.spawned| == |children|
    && forall i :: 0 <= i < |children| ==>
      r.spawned[i] == VmThread(shared.nextThreadId + i, children[i], false, Ready, 0)
  }

  /** The course with one more instruction in front. */
  function Before<M, L>(mem: M, local: L, c: Course<M, L>): Course<M, L> {
    Course([mem] + c.mems, [local] + c.locals)
  }

  lemma BeforeIsCourse<M(!new), L(!new)>(exec: (M, L) -> Outcome<M, L>, mem: M, local: L, c: Course<M, L>)
    requires IsCourse(exec, c) && exec(mem, local).Retired?
    requires c.mems[0] == exec(mem, local).mem && c.locals[0] == exec(mem, local).local
    requires exec(mem, local).halted ==> Length(c) == 0
    ensures IsCourse(exec, Before(mem, local, c))
  {
    var d := Before(mem, local, c);
    forall i, j | 0 <= i < j < |d.mems| && j == i + 1 ensures Succeeds(exec, d, i, j) {
      if i > 0 {
        assert Succeeds(exec, c, i - 1, j - 1);
      }
    }
  }

  lemma {:induction false} ChildrenBefore<M, L>(exec: (M, L) -> Outcome<M, L>, mem: M, local: L, c: Course<M, L>,
                                                n: nat)
    requires Shaped(c) && n <= Length(c) && exec(mem, local).Retired?
    ensures Children(exec, Before(mem, local, c), n + 1) == exec(mem, local).children + Children(exec, c, n)
  {
    var d := Before(mem, local, c);
    if n == 0 {
      assert Children(exec, d, 0) == [];
    } else {
      ChildrenBefore(exec, mem, local, c, n - 1);
      assert At(exec, d, n) == At(exec, c, n - 1);
    }
  }

  lemma HaltsBefore<M, L>(exec: (M, L) -> Outcome<M, L>, mem: M, local: L, c: Course<M, L>)
    requires Shaped(c) && exec(mem, local).Retired?
    ensures Halts(exec, Before(mem, local, c)) <==>
      if Length(c) == 0 then exec(mem, local).halted else Halts(exec, c)
    ensures At(exec, Before(mem, local, c), Length(c) + 1) == At(exec, c, Length(c))
  {
  }

  /** The spawned threads that stand after those of `q` already there. */
  function Added<M, L>(q: Quantum<M, L>, r: Quantum<M, L>): Quantum<M, L>
    requires |q.spawned| <= |r.spawned|
  {
    r.(spawned := r.spawned[|q.spawned|..])
  }

  lemma RetireThen<M(!new), L(!new)>(exec: (M, L) -> Outcome<M, L>, quanta: nat, q: Quantum<M, L>,
                                     c: Course<M, L>, r: Quantum<M, L>)
    requires exec(q.shared.mem, q.thread.local).Retired? && quanta > 0 && Shaped(c)
    requires exec(q.shared.mem, q.thread.local).halted ==> Length(c) == 0
    requires c.mems[0] == exec(q.shared.mem, q.thread.local).mem
    requires c.locals[0] == exec(q.shared.mem, q.thread.local).local
    requires var next := Retire(q, exec(q.shared.mem, q.thread.local));
      && |next.spawned| <= |r.spawned| && r.spawned[..|next.spawned|] == next.spawned
      && (next.thread.halted ==> r == next)
      && (!next.thread.halted ==> Leaves(exec, quanta - 1, next.thread, next.shared, c, Added(next, r)))
    ensures |q.spawned| <= |r.spawned| && r.spawned[..|q.spawned|] == q.spawned
    ensures Leaves(exec, quanta, q.thread, q.shared, Before(q.shared.mem, q.thread.local, c), Added(q, r))
  {
    var o := exec(q.shared.mem, q.thread.local);
    var d := Before(q.shared.mem, q.thread.local, c);
    ChildrenBefore(exec, q.shared.mem, q.thread.local, c, Length(c));
    HaltsBefore(exec, q.shared.mem, q.thread.local, c);
  }

  /**
   A quantum is a course of instructions from the thread and memory it starts
   with: it leaves the memory, context, counts, children and state that this
   course leaves, and stops only where it must.
   */
  lemma {:induction false} RunForCourse<M(!new), L(!new)>(exec: (M, L) -> Outcome<M, L>, quanta: nat, q: Quantum<M, L>)
    returns (c: Course<M, L>)
    requires !q.thread.halted
    ensures IsCourse(exec, c) && c.mems[0] == q.shared.mem && c.locals[0] == q.thread.local
    ensures Length(c) <= quanta && Stops(exec, quanta, c)
    ensures var r := RunFor(exec, quanta, q);
      && |q.spawned| <= |r.spawned| && r.spawned[..|q.spawned|] == q.spawned
      && Leaves(exec, quanta, q.thread, q.shared, c, Added(q, r))
    decreases quanta
  {
    var o := exec(q.shared.mem, q.thread.local);
    if quanta > 0 && o.Retired? {
      var next := Retire(q, o);
      var rest := Course([o.mem], [o.local]);
      if !o.halted {
        rest := RunForCourse(exec, quanta - 1, next);
      }
      c := Before(q.shared.mem, q.thread.local, rest);
      BeforeIsCourse(exec, q.shared.mem, q.thread.local, rest);
      HaltsBefore(exec, q.shared.mem, q.thread.local, rest);
      RetireThen(exec, quanta, q, rest, RunFor(exec, quanta, q));
    } else {
      c := Course([q.shared.mem], [q.thread.local]);
    }
  }

  /** The course of a quantum is the only one there is: it is fixed by where it starts and why it may stop. */
  lemma {:induction false} CourseUnique<M(!new), L(!new)>(exec: (M, L) -> Outcome<M, L>, quanta: nat, c: Course<M, L>,
                                                          d: Course<M, L>, i: nat)
    requires IsCourse(exec, c) && IsCourse(exec, d) && c.mems[0] == d.mems[0] && c.locals[0] == d.locals[0]
    requires i < |c.mems| && i < |d.mems|
    ensures c.mems[i] == d.mems[i] && c.locals[i] == d.locals[i]
  {
    if i > 0 {
      CourseUnique(exec, quanta, c, d, i - 1);
      assert Succeeds(exec, c, i - 1, i) && Succeeds(exec, d, i - 1, i);
    }
  }

  /**
   In every interleaving, the quantum a worker runs is such a course from the
   memory the workers share at that point, and nothing else changes.
   */
  lemma WorkerRunsCourse<M(!new), L(!new)>(exec: (M, L) -> Outcome<M, L>, quanta: nat, trace: seq<PoolRun<M, L>>,
                                           k: nat, i: nat)
    returns (c: Course<M, L>)
    requires IsTrace(exec, quanta, trace) && k < |trace| && i < |trace[k].workers| && trace[k].workers[i].Picked?
    ensures var s := trace[k]; var t := Next(exec, quanta, s, i); var thread := s.workers[i].thread;
      && IsCourse(exec, c) && c.mems[0] == s.shared.mem && c.locals[0] == thread.local
      && Length(c) <= quanta && Stops(exec, quanta, c)
      && t.workers[i].Ran? && t.workers[i].epoch == t.shared.progress
      && Leaves(exec, quanta, thread, s.shared, c, Quantum(t.shared, t.workers[i].thread, t.workers[i].spawned))
      && t == s.(shared := t.shared, workers := s.workers[i := t.workers[i]])
  {
    var s := trace[k];
    TraceInv(exec, quanta, trace, k);
    assert WorkerOk(exec, s.pool, s.shared, s.workers[i]);
    c := RunForCourse(exec, quanta, Quantum(s.shared, s.workers[i].thread, []));
  }
}
