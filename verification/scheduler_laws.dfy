/** What the cooperative scheduler promises: exact wake-ups, no false deadlock, fairness, no lost thread. */
module SchedulerLaws {
  import opened Memory
  import opened Heaps
  import opened Threads
  import opened RunLoops
  import Laws = RunLoopLaws
  import opened Schedulers

  /** The channel on which the current thread's next instruction moves a value, if it does. */
  function TransfersOn<M>(prog: Program<M>, m: Machine<M>): Option<HeapId> {
    if !Execute(prog, m).Done? then None
    else match prog(Bare(m.current))
      case Send(channel, _, _, _) => if Usable(m.channels, channel(m.mem)) then Some(channel(m.mem)) else None
      case Recv(channel, _, _) => if Usable(m.channels, channel(m.mem)) then Some(channel(m.mem)) else None
      case Alt(entries, _, _) => SelectedChannel(entries, m.channels)
      case NbAlt(entries, _, _, _) => SelectedChannel(entries, m.channels)
      case _ => None
  }

  function SelectedChannel<M>(entries: seq<AltEntry<M>>, channels: Channels): Option<HeapId> {
    if BadTable(entries) then None
    else
      var scan := ScanAlt(entries, channels, 0);
      if scan.Selected? then Some(entries[scan.idx].channel) else None
  }

  function Spawns<M>(prog: Program<M>, m: Machine<M>): seq<Thread> {
    match prog(Bare(m.current))
    case Compute(effect) => effect(m.mem).spawned
    case NewChannel(bind) => bind(m.mem, m.nextChannel).spawned
    case _ => []
  }

  predicate WokenOn(t: Thread, on: Option<HeapId>) {
    on.Some? && (t.blockedOn == on || t.blockedOn == Some(NIL))
  }

  predicate QueueIs(queue: seq<Thread>, was: seq<Thread>, on: Option<HeapId>, spawned: seq<Thread>) {
    && |queue| == |was| + |spawned|
    && (forall i :: 0 <= i < |was| ==> queue[i] == if WokenOn(was[i], on) then Bare(was[i]) else was[i])
    && (forall i :: 0 <= i < |spawned| ==> queue[|was| + i] == Bare(spawned[i]))
  }

  lemma SelectingQueue<M>(m: Machine<M>, entries: seq<AltEntry<M>>, chosen: (M, nat, Buffer) -> (M, Thread),
                          raise: Raise<M>, otherwise: Execution<M>)
    requires otherwise.Done? ==> otherwise.m.queue == m.queue
    requires Selecting(m, entries, chosen, raise, otherwise).Done?
    ensures QueueIs(Selecting(m, entries, chosen, raise, otherwise).m.queue, m.queue,
                    SelectedChannel(entries, m.channels), [])
  {
  }

  lemma AppliedQueue<M>(m: Machine<M>, e: Effect<M>)
    ensures QueueIs(Applied(m, e).queue, m.queue, None, e.spawned)
  {
  }

  /** What one instruction does to a queue: wakes on its channel, then appends what it spawned. */
  lemma QueueAfter<M>(prog: Program<M>, m: Machine<M>)
    requires Execute(prog, m).Done?
    ensures QueueIs(Execute(prog, m).m.queue, m.queue, TransfersOn(prog, m), Spawns(prog, m))
  {
    match prog(Bare(m.current)) {
      case Alt(entries, chosen, raise) =>
        SelectingQueue(m, entries, chosen, raise, Execution<M>.Blocked(NIL));
      case NbAlt(entries, chosen, none, raise) =>
        SelectingQueue(m, entries, chosen, raise, Done(m.(current := Bare(none))));
      case Compute(effect) => AppliedQueue(m, effect(m.mem));
      case NewChannel(bind) => AppliedQueue(WithChannel(m), bind(m.mem, m.nextChannel));
      case _ =>
    }
  }

  /** The VM in which the front thread of `s` takes its step. */
  function FrontVm<M>(s: Sched<M>): Machine<M>
    requires s.threads != []
  {
    VmOver(s.shared, View(s.threads[0]), Views(s.threads[1..]))
  }

  function Woken(t: VmThread): VmThread {
    t.(state := ThreadState.Ready)
  }

  /** From a thread queue to the next: whom an instruction wakes, and whom it adds. */
  predicate Dispatched<M>(s: Sched<M>, next: Sched<M>, on: Option<HeapId>, spawned: seq<Thread>)
    requires s.threads != []
  {
    var n := |s.threads|;
    && |next.threads| == n + |spawned|
    && next.threads[0].id == s.threads[0].id && next.threads[0].state == s.threads[0].state
    && (forall k :: 1 <= k < n ==>
          next.threads[k] == if WokenOn(View(s.threads[k]), on) then Woken(s.threads[k]) else s.threads[k])
    && (forall k :: n <= k < n + |spawned| ==>
          next.threads[k] == VmThread(s.nextThreadId + (k - n), Bare(spawned[k - n]), false, ThreadState.Ready))
    && next.nextThreadId == s.nextThreadId + |spawned|
  }

  lemma AbsorbDispatches<M>(s: Sched<M>, m: Machine<M>, next: Sched<M>, on: Option<HeapId>, spawned: seq<Thread>)
    requires s.threads != [] && QueueIs(m.queue, Views(s.threads[1..]), on, spawned)
    requires Absorb(s, Views(s.threads[1..]), Done(m)) == Some(next)
    ensures Dispatched(s, next, on, spawned)
  {
    var rest := s.threads[1..];
    var front := s.threads[0].(saved := m.current, halted := m.halted);
    var woken, added := WokenThreads(rest, m.queue), Adopted(m.queue[|rest|..], s.nextThreadId);
    assert next.threads == [front] + woken + added;
    forall k | 1 <= k < |s.threads|
      ensures next.threads[k] == if WokenOn(View(s.threads[k]), on) then Woken(s.threads[k]) else s.threads[k]
    {
      assert next.threads[k] == woken[k - 1] && rest[k - 1] == s.threads[k];
    }
  }

  /**
   A dispatched instruction readies exactly the threads waiting on the channel
   it moved a value on, or in `alt` on any; the others stay as they were and in
   order, and each spawned child follows with its whole context and a fresh id.
   */
  lemma DispatchExactly<M>(prog: Program<M>, s: Sched<M>, next: Sched<M>)
    requires s.threads != [] && Stepped(prog, s) == Some(next) && Execute(prog, FrontVm(s)).Done?
    ensures Dispatched(s, next, TransfersOn(prog, FrontVm(s)), Spawns(prog, FrontVm(s)))
  {
    var m := FrontVm(s);
    QueueAfter(prog, m);
    AbsorbDispatches(s, Execute(prog, m).m, next, TransfersOn(prog, m), Spawns(prog, m));
  }

  // --- Blocked threads really wait ---

  ghost predicate ThreadsOk<M>(prog: Program<M>, channels: Channels, ts: seq<VmThread>) {
    forall t :: t in ts && t.state.Blocked? ==> Laws.Waits(prog, channels, View(t))
  }

  ghost predicate Inv<M>(prog: Program<M>, s: Sched<M>) {
    && ThreadsOk(prog, s.shared.channels, s.threads)
    && Laws.InOrder(VmOver(s.shared, Mirror(None), []))
    && Laws.Fresh(VmOver(s.shared, Mirror(None), []))
  }

  lemma InvOfFront<M>(prog: Program<M>, s: Sched<M>)
    requires Inv(prog, s) && s.threads != [] && s.threads[0].state.Ready?
    ensures Laws.Inv(prog, FrontVm(s))
  {
    var vm := FrontVm(s);
    forall t | t in vm.queue && !RunLoops.Ready(t) ensures Laws.Waits(prog, vm.channels, t) {
      var i :| 0 <= i < |vm.queue| && vm.queue[i] == t;
      assert s.threads[1..][i] in s.threads;
    }
  }

  lemma InvOfShared<M>(prog: Program<M>, m: Machine<M>)
    requires Laws.Inv(prog, m)
    ensures Laws.InOrder(VmOver(SharedOf(m), Mirror(None), [])) && Laws.Fresh(VmOver(SharedOf(m), Mirror(None), []))
  {
  }

  /** The front thread's step blocked: it stays in front with its saved state. */
  lemma BlockedStep<M>(prog: Program<M>, s: Sched<M>, ch: HeapId)
    requires s.threads != [] && Execute(prog, FrontVm(s)) == Execution<M>.Blocked(ch)
    ensures Stepped(prog, s) == Some(s.(threads := s.threads[0 := s.threads[0].(state := ThreadState.Blocked(ch))]))
  {
    assert [s.threads[0].(state := ThreadState.Blocked(ch))] + s.threads[1..] ==
      s.threads[0 := s.threads[0].(state := ThreadState.Blocked(ch))];
  }

  lemma WaitersOk<M>(prog: Program<M>, s: Sched<M>, m: Machine<M>, next: Sched<M>, on: Option<HeapId>,
                     spawned: seq<Thread>)
    requires s.threads != [] && s.threads[0].state.Ready?
    requires QueueIs(m.queue, Views(s.threads[1..]), on, spawned) && Dispatched(s, next, on, spawned)
    requires Laws.QueueOk(prog, m.channels, m.queue)
    ensures ThreadsOk(prog, m.channels, next.threads)
  {
    forall t | t in next.threads && t.state.Blocked? ensures Laws.Waits(prog, m.channels, View(t)) {
      var k :| 0 <= k < |next.threads| && next.threads[k] == t;
      assert 1 <= k < |s.threads| && t == s.threads[k];
      assert m.queue[k - 1] == View(t) && m.queue[k - 1] in m.queue;
    }
  }

  lemma StepKeeps<M>(prog: Program<M>, s: Sched<M>, next: Sched<M>)
    requires Inv(prog, s) && s.threads != [] && s.threads[0].state.Ready? && Stepped(prog, s) == Some(next)
    ensures Inv(prog, next)
  {
    var m := FrontVm(s);
    InvOfFront(prog, s);
    match Execute(prog, m) {
      case Blocked(ch) =>
        BlockedStep(prog, s, ch);
        Laws.BlockedWaits(prog, m);
        forall t | t in next.threads && t.state.Blocked? ensures Laws.Waits(prog, s.shared.channels, View(t)) {
          assert t in s.threads || View(t) == m.current.(blockedOn := Some(ch));
        }
      case Done(after) =>
        Laws.ExecuteKeeps(prog, m);
        DispatchExactly(prog, s, next);
        QueueAfter(prog, m);
        WaitersOk(prog, s, after, next, TransfersOn(prog, m), Spawns(prog, m));
        InvOfShared(prog, after);
    }
  }

  /** What a quantum may do to the queue: the front thread changes, waiters may wake, children follow. */
  predicate Quantum<M>(s: Sched<M>, next: Sched<M>) {
    && 0 < |s.threads| <= |next.threads|
    && next.threads[0].id == s.threads[0].id
    && (forall k :: 1 <= k < |s.threads| ==>
      next.threads[k] == s.threads[k] || (s.threads[k].state.Blocked? && next.threads[k] == Woken(s.threads[k])))
    && (forall k :: |s.threads| <= k < |next.threads| ==>
          && next.threads[k].id == s.nextThreadId + (k - |s.threads|)
          && !next.threads[k].halted && next.threads[k].state.Ready?)
    && next.nextThreadId == s.nextThreadId + (|next.threads| - |s.threads|)
  }

  lemma StepIsQuantum<M>(prog: Program<M>, s: Sched<M>, next: Sched<M>)
    requires s.threads != [] && Stepped(prog, s) == Some(next)
    ensures Quantum(s, next)
  {
    match Execute(prog, FrontVm(s)) {
      case Blocked(ch) => BlockedStep(prog, s, ch);
      case Done(_) => DispatchExactly(prog, s, next);
    }
  }

  lemma QuantumTransitive<M>(a: Sched<M>, b: Sched<M>, c: Sched<M>)
    requires Quantum(a, b) && Quantum(b, c)
    ensures Quantum(a, c)
  {
  }

  lemma HaltingIsQuantum<M>(prog: Program<M>, s: Sched<M>)
    requires s.threads != []
    ensures var next := s.(threads := s.threads[0 := s.threads[0].(halted := true)]);
      Quantum(s, next) && (Inv(prog, s) ==> Inv(prog, next))
  {
    var front := s.threads[0].(halted := true);
    assert View(front) == View(s.threads[0]);
    forall t | t in s.threads[0 := front] ensures t == front || t in s.threads {
    }
  }

  lemma {:induction false} RunForKeeps<M(!new)>(prog: Program<M>, step: Step<M>, ends: (M, Thread) -> bool,
                                                quanta: nat, s: Sched<M>)
    requires Implements(step, prog)
    requires s.threads != [] && s.threads[0].state.Ready?
    requires RunFor(step, ends, quanta, s).Ran?
    ensures Quantum(s, RunFor(step, ends, quanta, s).s)
    ensures Inv(prog, s) ==> Inv(prog, RunFor(step, ends, quanta, s).s)
  {
    if quanta == 0 || s.threads[0].halted {
    } else if ends(s.shared.mem, View(s.threads[0])) {
      HaltingIsQuantum(prog, s);
    } else {
      var next := StepKept(prog, step, s);
      if next.threads[0].state.Ready? {
        RunForKeeps(prog, step, ends, quanta - 1, next);
        QuantumTransitive(s, next, RunFor(step, ends, quanta - 1, next).s);
      }
    }
  }

  lemma StepKept<M(!new)>(prog: Program<M>, step: Step<M>, s: Sched<M>) returns (next: Sched<M>)
    requires Implements(step, prog) && s.threads != [] && s.threads[0].state.Ready? && step(s).Some?
    ensures step(s) == Some(next) && Quantum(s, next) && (Inv(prog, s) ==> Inv(prog, next))
  {
    next := step(s).value;
    assert step(s) == Stepped(prog, s);
    StepIsQuantum(prog, s, next);
    if Inv(prog, s) {
      StepKeeps(prog, s, next);
    }
  }

  // --- Rounds ---

  lemma {:induction false} RetainMembers(ts: seq<VmThread>)
    ensures forall t :: t in Retain(ts) <==> t in ts && !t.halted
  {
    if ts != [] {
      RetainMembers(ts[1..]);
      assert ts == [ts[0]] + ts[1..];
    }
  }

  lemma LinedKeeps<M>(prog: Program<M>, s: Sched<M>)
    requires Inv(prog, s)
    ensures Inv(prog, Lined(s))
  {
    RetainMembers(s.threads);
    var live := Retain(s.threads);
    forall t | t in Lined(s).threads ensures t in s.threads {
      assert t in live;
    }
  }

  lemma RoundUnfolds<M(!new)>(prog: Program<M>, step: Step<M>, ends: (M, Thread) -> bool, quanta: nat, s: Sched<M>,
                              next: Sched<M>) returns (ran: Sched<M>)
    requires Implements(step, prog)
    requires Round(step, ends, quanta, s) == Continue(next)
    ensures Lined(s).threads != [] && Lined(s).threads[0].state.Ready?
    ensures RunFor(step, ends, quanta, Lined(s)) == Ran(ran)
    ensures Quantum(Lined(s), ran) && next == ran.(threads := HandedBack(ran.threads))
    ensures Inv(prog, Lined(s)) ==> Inv(prog, ran)
  {
    ran := RunFor(step, ends, quanta, Lined(s)).s;
    RunForKeeps(prog, step, ends, quanta, Lined(s));
  }

  lemma RoundKeeps<M(!new)>(prog: Program<M>, step: Step<M>, ends: (M, Thread) -> bool, quanta: nat, s: Sched<M>,
                            next: Sched<M>)
    requires Implements(step, prog)
    requires Inv(prog, s) && Round(step, ends, quanta, s) == Continue(next)
    ensures Inv(prog, next)
  {
    LinedKeeps(prog, s);
    var ran := RoundUnfolds(prog, step, ends, quanta, s, next);
    forall t | t in next.threads ensures t in ran.threads {
    }
  }

  ghost predicate Initial<M>(s: Sched<M>) {
    && (forall t :: t in s.threads ==> t.state.Ready?)
    && s.shared.channels == map[] && s.shared.sent == map[] && s.shared.received == map[]
    && s.shared.nextChannel == HEAP_ID_BASE
  }

  ghost predicate IsRun<M(!new)>(step: Step<M>, ends: (M, Thread) -> bool, quanta: nat, run: seq<Sched<M>>) {
    && run != []
    && forall i, j :: 0 <= i < j < |run| && j == i + 1 ==> Round(step, ends, quanta, run[i]) == Continue(run[j])
  }

  /** In every reachable state a thread marked blocked waits on a channel that does not allow its operation. */
  lemma {:induction false} RunsKeepInv<M(!new)>(prog: Program<M>, step: Step<M>, ends: (M, Thread) -> bool,
                                                quanta: nat, run: seq<Sched<M>>, i: nat)
    requires Implements(step, prog)
    requires IsRun(step, ends, quanta, run) && Initial(run[0]) && i < |run|
    ensures Inv(prog, run[i])
  {
    if i > 0 {
      RunsKeepInv(prog, step, ends, quanta, run, i - 1);
      RoundKeeps(prog, step, ends, quanta, run[i - 1], run[i]);
    }
  }

  /** A deadlock is reported exactly when there is a live thread and every one is blocked. */
  lemma DeadlockExactly<M>(step: Step<M>, ends: (M, Thread) -> bool, quanta: nat, s: Sched<M>)
    ensures Round(step, ends, quanta, s).Deadlock? <==>
      (exists t :: t in s.threads && !t.halted) && forall t :: t in s.threads && !t.halted ==> t.state.Blocked?
  {
    RetainMembers(s.threads);
    var live := Retain(s.threads);
    assert live != [] ==> live[0] in live;
    if live != [] && FirstUnblocked(live) < |live| {
      assert live[FirstUnblocked(live)] in live;
    }
  }

  // --- Fairness ---

  lemma {:induction false} RetainIndex(ts: seq<VmThread>, i: nat) returns (j: nat)
    requires i < |ts| && !ts[i].halted
    ensures j <= i && j < |Retain(ts)| && Retain(ts)[j] == ts[i]
  {
    if i == 0 {
      j := 0;
    } else {
      var k := RetainIndex(ts[1..], i - 1);
      j := if ts[0].halted then k else k + 1;
    }
  }

  lemma BehindRunner<M>(s: Sched<M>, ran: Sched<M>, k: nat)
    requires Quantum(s, ran) && 1 <= k < |s.threads| && s.threads[k].state.Ready?
    ensures k - 1 < |HandedBack(ran.threads)| && HandedBack(ran.threads)[k - 1] == s.threads[k]
  {
    assert ran.threads[k] == s.threads[k];
  }

  lemma BehindFirst<M>(s: Sched<M>, live: seq<VmThread>, first: nat, ran: Sched<M>, at: nat)
    requires first < at < |live| && live[at].state.Ready?
    requires s.threads == Rotated(live, first) && Quantum(s, ran)
    ensures at - first - 1 < |HandedBack(ran.threads)| && HandedBack(ran.threads)[at - first - 1] == live[at]
  {
    assert s.threads[at - first] == live[at];
    BehindRunner(s, ran, at - first);
  }

  lemma Position(ts: seq<VmThread>, i: nat) returns (at: nat)
    requires i < |ts| && !ts[i].halted && ts[i].state.Ready?
    ensures at <= i && at < |Retain(ts)| && Retain(ts)[at] == ts[i] && FirstUnblocked(Retain(ts)) <= at
  {
    at := RetainIndex(ts, i);
  }

  /** While some live thread is ready, the scheduler neither stops nor reports a deadlock. */
  lemma ReadyGoesOn<M>(step: Step<M>, ends: (M, Thread) -> bool, quanta: nat, s: Sched<M>, i: nat)
    requires i < |s.threads| && !s.threads[i].halted && s.threads[i].state.Ready?
    ensures Round(step, ends, quanta, s).Continue? || Round(step, ends, quanta, s).Faulted?
  {
    var at := Position(s.threads, i);
  }

  /** The thread in front, and so the one that runs, when the next quantum starts. */
  predicate StartsQuantum<M>(s: Sched<M>, t: VmThread) {
    Lined(s).threads != [] && Lined(s).threads[0] == t
  }

  lemma FrontOrBehind<M>(s: Sched<M>, i: nat) returns (at: nat)
    requires i < |s.threads| && !s.threads[i].halted && s.threads[i].state.Ready?
    ensures at <= i && at < |Retain(s.threads)| && Retain(s.threads)[at] == s.threads[i]
    ensures FirstUnblocked(Retain(s.threads)) <= at
    ensures FirstUnblocked(Retain(s.threads)) == at ==> StartsQuantum(s, s.threads[i])
  {
    at := Position(s.threads, i);
  }

  /** A ready thread that does not start a quantum this round moves up, untouched. */
  lemma MovesUp<M>(s: Sched<M>, ran: Sched<M>, i: nat) returns (j: nat)
    requires Lined(s).threads != [] && Quantum(Lined(s), ran)
    requires i < |s.threads| && !s.threads[i].halted && s.threads[i].state.Ready? && !StartsQuantum(s, s.threads[i])
    ensures j < i && j < |HandedBack(ran.threads)| && HandedBack(ran.threads)[j] == s.threads[i]
  {
    var at := FrontOrBehind(s, i);
    var live := Retain(s.threads);
    var first := FirstUnblocked(live);
    BehindFirst(Lined(s), live, first, ran, at);
    j := at - first - 1;
  }

  lemma FrontStarts<M>(s: Sched<M>)
    requires 0 < |s.threads| && !s.threads[0].halted && s.threads[0].state.Ready?
    ensures StartsQuantum(s, s.threads[0])
  {
  }

  lemma RunTail<M(!new)>(step: Step<M>, ends: (M, Thread) -> bool, quanta: nat, run: seq<Sched<M>>)
    requires IsRun(step, ends, quanta, run) && |run| > 1
    ensures IsRun(step, ends, quanta, run[1..]) && Round(step, ends, quanta, run[0]) == Continue(run[1])
  {
  }

  /** A ready thread at index i, untouched meanwhile, starts a quantum within i + 1 rounds. */
  lemma {:induction false} StartsWithin<M(!new)>(prog: Program<M>, step: Step<M>, ends: (M, Thread) -> bool,
                                                 quanta: nat, run: seq<Sched<M>>, i: nat) returns (n: nat)
    requires Implements(step, prog)
    requires IsRun(step, ends, quanta, run) && i < |run|
    requires i < |run[0].threads| && !run[0].threads[i].halted && run[0].threads[i].state.Ready?
    ensures n <= i && StartsQuantum(run[n], run[0].threads[i])
    decreases i
  {
    if i == 0 {
      FrontStarts(run[0]);
    }
    if StartsQuantum(run[0], run[0].threads[i]) {
      n := 0;
    } else {
      RunTail(step, ends, quanta, run);
      var ran := RoundUnfolds(prog, step, ends, quanta, run[0], run[1]);
      var j := MovesUp(run[0], ran, i);
      var later := StartsWithin(prog, step, ends, quanta, run[1..], j);
      n := later + 1;
    }
  }

  // --- No thread is lost ---

  /** Each thread's id and saved context. */
  function Contexts(ts: seq<VmThread>): (r: seq<(nat, Thread)>)
    ensures |r| == |ts| && forall i :: 0 <= i < |ts| ==> r[i] == (ts[i].id, ts[i].saved)
  {
    seq(|ts|, i requires 0 <= i < |ts| => (ts[i].id, ts[i].saved))
  }

  /** The runner, when it halted with other threads queued. */
  function Dropped(ts: seq<VmThread>): multiset<(nat, Thread)>
    requires ts != []
  {
    if |ts| > 1 && ts[0].halted then multiset{(ts[0].id, ts[0].saved)} else multiset{}
  }

  lemma RotatedContexts(ts: seq<VmThread>, i: nat)
    requires i <= |ts|
    ensures multiset(Contexts(Rotated(ts, i))) == multiset(Contexts(ts))
  {
    assert Contexts(Rotated(ts, i)) == Contexts(ts)[i..] + Contexts(ts)[..i];
    assert Contexts(ts) == Contexts(ts)[..i] + Contexts(ts)[i..];
  }

  lemma HandedBackContexts(ts: seq<VmThread>)
    requires ts != []
    ensures multiset(Contexts(ts)) == multiset(Contexts(HandedBack(ts))) + Dropped(ts)
  {
    var front := (ts[0].id, ts[0].saved);
    assert Contexts(ts) == [front] + Contexts(ts[1..]);
    if |ts| > 1 && !ts[0].halted {
      assert Contexts(HandedBack(ts)) == Contexts(ts[1..]) + [front];
    }
  }

  /** A quantum leaves the waiting threads' contexts alone. */
  lemma QuantumContexts<M>(s: Sched<M>, next: Sched<M>)
    requires Quantum(s, next)
    ensures multiset(Contexts(next.threads)) + multiset{(s.threads[0].id, s.threads[0].saved)}
         == multiset(Contexts(s.threads)) + multiset{(next.threads[0].id, next.threads[0].saved)}
            + multiset(Contexts(next.threads[|s.threads|..]))
  {
    var waiting, more := multiset(Contexts(s.threads[1..])), multiset(Contexts(next.threads[|s.threads|..]));
    WholeSplit(s.threads, waiting);
    QuantumSplit(s, next, waiting, more);
    Rearrange((s.threads[0].id, s.threads[0].saved), (next.threads[0].id, next.threads[0].saved), waiting, more);
  }

  lemma WholeSplit(ts: seq<VmThread>, others: multiset<(nat, Thread)>)
    requires ts != [] && others == multiset(Contexts(ts[1..]))
    ensures multiset(Contexts(ts)) == multiset{(ts[0].id, ts[0].saved)} + others
  {
    assert Contexts(ts) == [(ts[0].id, ts[0].saved)] + Contexts(ts[1..]);
  }

  lemma QuantumSplit<M>(s: Sched<M>, next: Sched<M>, waiting: multiset<(nat, Thread)>, more: multiset<(nat, Thread)>)
    requires Quantum(s, next)
    requires waiting == multiset(Contexts(s.threads[1..])) && more == multiset(Contexts(next.threads[|s.threads|..]))
    ensures multiset(Contexts(next.threads)) == multiset{(next.threads[0].id, next.threads[0].saved)} + waiting + more
  {
    var n := |s.threads|;
    WaitingContexts(s, next);
    assert Contexts(next.threads) ==
      [(next.threads[0].id, next.threads[0].saved)] + Contexts(next.threads[1..n]) + Contexts(next.threads[n..]);
  }

  lemma WaitingContexts<M>(s: Sched<M>, next: Sched<M>)
    requires Quantum(s, next)
    ensures Contexts(next.threads[1..|s.threads|]) == Contexts(s.threads[1..])
  {
    forall k | 1 <= k < |s.threads|
      ensures next.threads[k].id == s.threads[k].id && next.threads[k].saved == s.threads[k].saved
    {
    }
  }

  lemma Rearrange<T>(was: T, becomes: T, others: multiset<T>, more: multiset<T>)
    ensures multiset{becomes} + others + more + multiset{was} == multiset{was} + others + multiset{becomes} + more
  {
  }

  /** What a round did to the contexts, given the queue the runner left. */
  ghost predicate Accounted<M>(s: Sched<M>, ran: Sched<M>, next: Sched<M>)
    requires Lined(s).threads != [] && |Lined(s).threads| <= |ran.threads|
  {
    var runner, children := Lined(s).threads[0], ran.threads[|Lined(s).threads|..];
    && multiset(Contexts(next.threads)) + Dropped(ran.threads) + multiset{(runner.id, runner.saved)}
       == multiset(Contexts(Retain(s.threads))) + multiset{(runner.id, ran.threads[0].saved)}
          + multiset(Contexts(children))
    && next.nextThreadId == s.nextThreadId + |children|
    && forall k :: 0 <= k < |children| ==> children[k].id == s.nextThreadId + k
  }

  /**
   A round ends with the live threads it began with, the runner's context as the
   quantum left it and every other as it was, and with the threads spawned, under
   new ids; less the runner if it halted while others are queued.
   */
  lemma RoundLosesNoThread<M(!new)>(prog: Program<M>, step: Step<M>, ends: (M, Thread) -> bool, quanta: nat,
                                    s: Sched<M>, next: Sched<M>)
    requires Implements(step, prog)
    requires Round(step, ends, quanta, s) == Continue(next)
    ensures var ran := RunFor(step, ends, quanta, Lined(s));
      ran.Ran? && Lined(s).threads != [] && |Lined(s).threads| <= |ran.s.threads| && Accounted(s, ran.s, next)
  {
    var ran := RoundUnfolds(prog, step, ends, quanta, s, next);
    RoundContexts(s, ran, next);
  }

  lemma RoundContexts<M>(s: Sched<M>, ran: Sched<M>, next: Sched<M>)
    requires Quantum(Lined(s), ran) && next == ran.(threads := HandedBack(ran.threads))
    ensures Accounted(s, ran, next)
  {
    QuantumContexts(Lined(s), ran);
    RotatedContexts(Retain(s.threads), FirstUnblocked(Retain(s.threads)));
    HandedBackContexts(ran.threads);
  }
}
