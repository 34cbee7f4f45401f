/**
 The cooperative scheduler (scheduler.rs). Each instruction runs on a temporary
 VM whose queue holds one mirror per waiting thread: an empty thread that only
 says what that thread is blocked on.
 */
module Schedulers {
  import opened Memory
  import opened Heaps
  import opened Threads
  import opened RunLoops

  datatype ThreadState = Ready | Blocked(channel: HeapId)

  /** `saved` holds the context; its pid and blockedOn stand in `id` and `state` instead. */
  datatype VmThread = VmThread(id: nat, saved: Thread, halted: bool, state: ThreadState)

  /** What the threads share. `sent` and `received` record what each channel has carried. */
  datatype Shared<M> = Shared(
    mem: M,
    channels: Channels,
    nextChannel: HeapId,
    sent: map<HeapId, seq<Buffer>>,
    received: map<HeapId, seq<Buffer>>)

  datatype Sched<M> = Sched(shared: Shared<M>, threads: seq<VmThread>, nextThreadId: nat)

  function WaitsOn(t: VmThread): Option<HeapId> {
    match t.state
    case Blocked(ch) => Some(ch)
    case Ready => None
  }

  /** The thread as the main run loop would queue it. */
  function View(t: VmThread): Thread {
    t.saved.(pid := t.id, blockedOn := WaitsOn(t))
  }

  function Views(ts: seq<VmThread>): (r: seq<Thread>)
    ensures |r| == |ts| && forall i :: 0 <= i < |ts| ==> r[i] == View(ts[i])
  {
    seq(|ts|, i requires 0 <= i < |ts| => View(ts[i]))
  }

  function FromSuspended(id: nat, child: Thread): VmThread {
    VmThread(id, child, false,
             match child.blockedOn case Some(ch) => ThreadState.Blocked(ch) case None => ThreadState.Ready)
  }

  function Adopted(children: seq<Thread>, firstId: nat): (r: seq<VmThread>)
    ensures |r| == |children| && forall i :: 0 <= i < |r| ==> r[i] == FromSuspended(firstId + i, children[i])
  {
    seq(|children|, i requires 0 <= i < |children| => FromSuspended(firstId + i, children[i]))
  }

  /** A VM that runs `current` with `queue` waiting behind it. */
  function VmOver<M>(shared: Shared<M>, current: Thread, queue: seq<Thread>): Machine<M> {
    Machine(shared.mem, current, false, queue, shared.channels, shared.nextChannel, 0, [],
            shared.sent, shared.received, Running)
  }

  function SharedOf<M>(m: Machine<M>): Shared<M> {
    Shared(m.mem, m.channels, m.nextChannel, m.sent, m.received)
  }

  /** A waiting thread after an instruction that left its queue entry waiting on `blockedOn`. */
  function AfterWake(t: VmThread, blockedOn: Option<HeapId>): VmThread {
    if t.state.Blocked? && blockedOn.None? then t.(state := ThreadState.Ready) else t
  }

  function WokenThreads(rest: seq<VmThread>, queue: seq<Thread>): (r: seq<VmThread>)
    requires |rest| <= |queue|
    ensures |r| == |rest| && forall i :: 0 <= i < |r| ==> r[i] == AfterWake(rest[i], queue[i].blockedOn)
  {
    seq(|rest|, i requires 0 <= i < |rest| => AfterWake(rest[i], queue[i].blockedOn))
  }

  /** The scheduler after the VM ran one instruction of the front thread over `queue`. */
  function Absorb<M>(s: Sched<M>, queue: seq<Thread>, e: Execution<M>): Option<Sched<M>>
    requires s.threads != [] && |queue| == |s.threads| - 1
    requires e.Done? ==> |e.m.queue| >= |queue|
  {
    var front, rest := s.threads[0], s.threads[1..];
    match e
    case Fault => None
    case Blocked(ch) => Some(s.(threads := [front.(state := ThreadState.Blocked(ch))] + rest))
    case Done(m) =>
      Some(Sched(SharedOf(m),
                 [front.(saved := m.current, halted := m.halted)] + WokenThreads(rest, m.queue)
                   + Adopted(m.queue[|rest|..], s.nextThreadId),
                 s.nextThreadId + (|m.queue| - |rest|)))
  }

  lemma QueueGrows<M>(prog: Program<M>, m: Machine<M>)
    ensures Execute(prog, m).Done? ==> |Execute(prog, m).m.queue| >= |m.queue|
  {
    ExecuteCarries(prog, m);
  }

  /** One instruction of the front thread, with the other threads themselves in the VM's queue. */
  function Stepped<M>(prog: Program<M>, s: Sched<M>): Option<Sched<M>> {
    if s.threads == [] then None else
    var queue := Views(s.threads[1..]);
    var vm := VmOver(s.shared, View(s.threads[0]), queue);
    QueueGrows(prog, vm);
    Absorb(s, queue, Execute(prog, vm))
  }

  type Step<!M> = Sched<M> -> Option<Sched<M>>

  function StepOf<M>(prog: Program<M>): Step<M> {
    (s: Sched<M>) => Stepped(prog, s)
  }

  lemma StepOfImplements<M(!new)>(prog: Program<M>)
    ensures Implements(StepOf(prog), prog)
  {
  }

  /** Stated so that a use of `step` alone does not bring in the instructions behind it. */
  ghost predicate Implements<M(!new)>(step: Step<M>, prog: Program<M>) {
    forall s: Sched<M> {:trigger Stepped(prog, s)} :: step(s) == Stepped(prog, s)
  }

  datatype QuantumResult<M> = Ran(s: Sched<M>) | Failed

  /** Up to `quanta` instructions of the front thread; `ends` says when its pc is past its code. */
  function RunFor<M>(step: Step<M>, ends: (M, Thread) -> bool, quanta: nat, s: Sched<M>): QuantumResult<M>
    decreases quanta
  {
    if quanta == 0 || s.threads == [] || s.threads[0].halted then Ran(s)
    else if ends(s.shared.mem, View(s.threads[0])) then
      Ran(s.(threads := s.threads[0 := s.threads[0].(halted := true)]))
    else match step(s)
      case None => Failed
      case Some(next) =>
        if next.threads != [] && next.threads[0].state.Blocked? then Ran(next) else RunFor(step, ends, quanta - 1, next)
  }

  function Retain(ts: seq<VmThread>): seq<VmThread> {
    if ts == [] then [] else (if ts[0].halted then [] else [ts[0]]) + Retain(ts[1..])
  }

  lemma RetainStep(kept: seq<VmThread>, all: seq<VmThread>, i: nat)
    requires i < |all|
    ensures kept + Retain(all[i..]) == (if all[i].halted then kept else kept + [all[i]]) + Retain(all[i + 1..])
  {
    assert all[i..][1..] == all[i + 1..];
  }

  function FirstUnblocked(ts: seq<VmThread>): (i: nat)
    ensures i <= |ts|
    ensures i < |ts| ==> !ts[i].state.Blocked?
    ensures forall k :: 0 <= k < i ==> ts[k].state.Blocked?
  {
    if ts == [] then 0
    else if !ts[0].state.Blocked? then 0
    else
      var k := FirstUnblocked(ts[1..]);
      assert forall j :: 0 < j < 1 + k ==> ts[j] == ts[1..][j - 1];
      1 + k
  }

  function Rotated(ts: seq<VmThread>, i: nat): seq<VmThread>
    requires i <= |ts|
  {
    ts[i..] + ts[..i]
  }

  datatype RoundResult<M> = Continue(s: Sched<M>) | Finished | Deadlock | Faulted

  /** The front thread goes to the back, unless it has halted. */
  function HandedBack(ts: seq<VmThread>): seq<VmThread> {
    if |ts| <= 1 then ts
    else if ts[0].halted then ts[1..]
    else ts[1..] + [ts[0]]
  }

  const DEFAULT_QUANTA: nat := 2048

  /** The queue a quantum starts from: live threads, a runnable one in front. */
  function Lined<M>(s: Sched<M>): Sched<M> {
    var live := Retain(s.threads);
    s.(threads := Rotated(live, FirstUnblocked(live)))
  }

  /** One turn of the loop in `Scheduler::run`, where `quanta` is DEFAULT_QUANTA. */
  function Round<M>(step: Step<M>, ends: (M, Thread) -> bool, quanta: nat, s: Sched<M>): RoundResult<M> {
    var live := Retain(s.threads);
    if live == [] then RoundResult.Finished
    else if FirstUnblocked(live) == |live| then RoundResult.Deadlock
    else match RunFor(step, ends, quanta, Lined(s))
      case Failed => RoundResult.Faulted
      case Ran(next) => Continue(next.(threads := HandedBack(next.threads)))
  }

  /** What a waiting thread shows of itself to the VM. */
  function Mirror(blockedOn: Option<HeapId>): Thread {
    SuspendedThread(FrameImage([], 0, 0), [], 0, 0, [], "", None, [], blockedOn)
  }

  function Mirrors(rest: seq<VmThread>): (r: seq<Thread>)
    ensures |r| == |rest| && forall i :: 0 <= i < |r| ==> r[i] == Mirror(WaitsOn(rest[i]))
  {
    seq(|rest|, i requires 0 <= i < |rest| => Mirror(WaitsOn(rest[i])))
  }

  /** Executions over two queues whose entries wait on the same channels: they differ in those entries only. */
  ghost predicate Related<M>(n: nat, e1: Execution<M>, e2: Execution<M>) {
    match (e1, e2)
    case (Fault, Fault) => true
    case (Blocked(a), Blocked(b)) => a == b
    case (Done(m1), Done(m2)) =>
      && m2 == m1.(queue := m2.queue)
      && n <= |m1.queue| == |m2.queue|
      && m1.queue[n..] == m2.queue[n..]
      && forall i :: 0 <= i < n ==> m1.queue[i].blockedOn == m2.queue[i].blockedOn
    case _ => false
  }

  predicate SameWaits(q1: seq<Thread>, q2: seq<Thread>) {
    |q1| == |q2| && forall i :: 0 <= i < |q1| ==> q1[i].blockedOn == q2[i].blockedOn
  }

  lemma MoveRelated<M>(m: Machine<M>, q: seq<Thread>, ch: HeapId, data: Buffer)
    requires SameWaits(m.queue, q)
    ensures Related(|q|, Done(Deposited(m, ch, data)), Done(Deposited(m.(queue := q), ch, data)))
    ensures Related(|q|, Done(Withdrawn(m, ch, data)), Done(Withdrawn(m.(queue := q), ch, data)))
  {
  }

  lemma TransferredRelated<M>(m: Machine<M>, q: seq<Thread>, entries: seq<AltEntry<M>>,
                              chosen: (M, nat, Buffer) -> (M, Thread), i: nat)
    requires SameWaits(m.queue, q)
    requires i < |entries| && entries[i].channel in m.channels && EntryReady(entries[i], m.channels)
    ensures Related(|q|, Done(Transferred(m, entries, chosen, i)),
      Done(Transferred(m.(queue := q), entries, chosen, i)))
  {
  }

  lemma CaughtRelated<M>(m: Machine<M>, q: seq<Thread>, raise: Raise<M>)
    requires SameWaits(m.queue, q)
    ensures Related(|q|, Caught(m, raise), Caught(m.(queue := q), raise))
  {
  }

  lemma AppliedRelated<M>(m: Machine<M>, q: seq<Thread>, e: Effect<M>)
    requires SameWaits(m.queue, q)
    ensures Related(|q|, Done(Applied(m, e)), Done(Applied(m.(queue := q), e)))
  {
  }

  lemma SelectingRelated<M>(m: Machine<M>, q: seq<Thread>, entries: seq<AltEntry<M>>,
                            chosen: (M, nat, Buffer) -> (M, Thread), raise: Raise<M>,
                            e1: Execution<M>, e2: Execution<M>)
    requires SameWaits(m.queue, q) && Related(|q|, e1, e2)
    ensures Related(|q|, Selecting(m, entries, chosen, raise, e1),
      Selecting(m.(queue := q), entries, chosen, raise, e2))
  {
    if BadTable(entries) {
      CaughtRelated(m, q, raise);
    } else if ScanAlt(entries, m.channels, 0).Selected? {
      TransferredRelated(m, q, entries, chosen, ScanAlt(entries, m.channels, 0).idx);
    }
  }

  lemma AltRelated<M>(prog: Program<M>, m: Machine<M>, q: seq<Thread>)
    requires SameWaits(m.queue, q) && (prog(Bare(m.current)).Alt? || prog(Bare(m.current)).NbAlt?)
    ensures Related(|q|, Execute(prog, m), Execute(prog, m.(queue := q)))
  {
    match prog(Bare(m.current)) {
      case Alt(entries, chosen, raise) =>
        SelectingRelated(m, q, entries, chosen, raise, Execution<M>.Blocked(NIL), Execution<M>.Blocked(NIL));
      case NbAlt(entries, chosen, none, raise) =>
        var otherwise := m.(current := Bare(none));
        SelectingRelated(m, q, entries, chosen, raise, Done(otherwise), Done(otherwise.(queue := q)));
    }
  }

  lemma SendRelated<M>(prog: Program<M>, m: Machine<M>, q: seq<Thread>)
    requires SameWaits(m.queue, q) && prog(Bare(m.current)).Send?
    ensures Related(|q|, Execute(prog, m), Execute(prog, m.(queue := q)))
  {
    var send := prog(Bare(m.current));
    var ch := send.channel(m.mem);
    if !Usable(m.channels, ch) {
      CaughtRelated(m, q, send.raise);
    } else if m.channels[ch].Empty? {
      MoveRelated(m, q, ch, send.payload(m.mem));
    }
  }

  lemma RecvRelated<M>(prog: Program<M>, m: Machine<M>, q: seq<Thread>)
    requires SameWaits(m.queue, q) && prog(Bare(m.current)).Recv?
    ensures Related(|q|, Execute(prog, m), Execute(prog, m.(queue := q)))
  {
    var recv := prog(Bare(m.current));
    var ch := recv.channel(m.mem);
    if !Usable(m.channels, ch) {
      CaughtRelated(m, q, recv.raise);
    } else if m.channels[ch].Full? {
      MoveRelated(m, q, ch, m.channels[ch].data);
    }
  }

  lemma ExecuteRelated<M>(prog: Program<M>, m: Machine<M>, q: seq<Thread>)
    requires SameWaits(m.queue, q)
    ensures Related(|q|, Execute(prog, m), Execute(prog, m.(queue := q)))
  {
    match prog(Bare(m.current)) {
      case Compute(effect) => AppliedRelated(m, q, effect(m.mem));
      case NewChannel(bind) => AppliedRelated(WithChannel(m), q, bind(m.mem, m.nextChannel));
      case Alt(_, _, _) => AltRelated(prog, m, q);
      case NbAlt(_, _, _, _) => AltRelated(prog, m, q);
      case Send(_, _, _, _) => SendRelated(prog, m, q);
      case Recv(_, _, _) => RecvRelated(prog, m, q);
    }
  }

  /** The mirrors serve: the scheduler ends up as if the threads themselves had been queued in the VM. */
  lemma MirrorsSuffice<M>(prog: Program<M>, s: Sched<M>)
    requires s.threads != []
    ensures var queue := Mirrors(s.threads[1..]);
      var e := Execute(prog, VmOver(s.shared, View(s.threads[0]), queue));
      (e.Done? ==> |e.m.queue| >= |queue|) && Absorb(s, queue, e) == Stepped(prog, s)
  {
    var whole := VmOver(s.shared, View(s.threads[0]), Views(s.threads[1..]));
    var queue := Mirrors(s.threads[1..]);
    ExecuteRelated(prog, whole, queue);
    QueueGrows(prog, whole);
    var e1, e2 := Execute(prog, whole), Execute(prog, whole.(queue := queue));
    if e1.Done? {
      assert WokenThreads(s.threads[1..], e1.m.queue) == WokenThreads(s.threads[1..], e2.m.queue);
    }
  }

  class Scheduler<M(!new)> {
    var shared: Shared<M>
    var threads: seq<VmThread>
    var nextThreadId: nat

    constructor (shared: Shared<M>)
      ensures State() == Sched(shared, [], 1)
    {
      this.shared, threads, nextThreadId := shared, [], 1;
    }

    function State(): Sched<M>
      reads this
    {
      Sched(shared, threads, nextThreadId)
    }

    method AdoptChild(child: Thread) returns (id: nat)
      modifies this`threads, this`nextThreadId
      ensures id == old(nextThreadId) && nextThreadId == id + 1
      ensures threads == old(threads) + [FromSuspended(id, child)]
    {
      id := nextThreadId;
      nextThreadId := nextThreadId + 1;
      threads := threads + [FromSuspended(id, child)];
    }

    method RotateToReady() returns (found: bool)
      modifies this`threads
      ensures var i := FirstUnblocked(old(threads));
        found == (i < |old(threads)|) && threads == if found then Rotated(old(threads), i) else old(threads)
    {
      var i := 0;
      while i < |threads| && threads[i].state.Blocked?
        invariant i <= |threads| && threads == old(threads)
        invariant forall k :: 0 <= k < i ==> threads[k].state.Blocked?
      {
        i := i + 1;
      }
      assert i == FirstUnblocked(threads);
      if i == |threads| {
        return false;
      }
      threads := Rotated(threads, i);
      return true;
    }

    /** Ready every waiting thread whose mirror the instruction unblocked. */
    method WakeThreads(waiters: seq<Option<HeapId>>, mirrors: seq<Thread>)
      requires |threads| == |waiters| + 1 && |mirrors| == |waiters|
      requires forall i :: 0 <= i < |waiters| ==> waiters[i] == WaitsOn(threads[i + 1])
      modifies this`threads
      ensures threads == [old(threads)[0]] + WokenThreads(old(threads)[1..], mirrors)
    {
      ghost var was := threads;
      var idx := 0;
      while idx < |mirrors|
        invariant idx <= |mirrors| && |threads| == |was| && threads[0] == was[0]
        invariant forall j :: 1 <= j < |was| ==>
          threads[j] == if j <= idx then AfterWake(was[j], mirrors[j - 1].blockedOn) else was[j]
      {
        if mirrors[idx].blockedOn.None? && waiters[idx].Some? {
          threads := threads[idx + 1 := threads[idx + 1].(state := ThreadState.Ready)];
        }
        idx := idx + 1;
      }
    }

    method AdoptAll(spawned: seq<Thread>)
      modifies this`threads, this`nextThreadId
      ensures threads == old(threads) + Adopted(spawned, old(nextThreadId))
      ensures nextThreadId == old(nextThreadId) + |spawned|
    {
      ghost var was, id0 := threads, nextThreadId;
      var i := 0;
      while i < |spawned|
        invariant i <= |spawned| && nextThreadId == id0 + i
        invariant threads == was + Adopted(spawned, id0)[..i]
      {
        var _ := AdoptChild(spawned[i]);
        i := i + 1;
      }
    }

    /** Run one instruction of the front thread. False when it faults, leaving the threads as they were. */
    method DispatchForThread(prog: Program<M>) returns (ok: bool)
      requires threads != []
      modifies this
      ensures ok == Stepped(prog, old(State())).Some?
      ensures State() == if ok then Stepped(prog, old(State())).value else old(State())
    {
      ghost var was := State();
      var rest := threads[1..];
      var waiters := seq(|rest|, i requires 0 <= i < |rest| => WaitsOn(rest[i]));
      var queue := seq(|waiters|, i requires 0 <= i < |waiters| => Mirror(waiters[i]));
      assert queue == Mirrors(rest);
      MirrorsSuffice(prog, was);
      var result := Execute(prog, VmOver(shared, View(threads[0]), queue));
      match result {
        case Fault => return false;
        case Blocked(ch) =>
          threads := [threads[0].(state := ThreadState.Blocked(ch))] + threads[1..];
        case Done(vm) =>
          var mirrors, spawned := vm.queue[..|waiters|], vm.queue[|waiters|..];
          threads := threads[0 := threads[0].(saved := vm.current, halted := vm.halted)];
          shared := SharedOf(vm);
          WakeThreads(waiters, mirrors);
          assert WokenThreads(was.threads[1..], mirrors) == WokenThreads(was.threads[1..], vm.queue);
          AdoptAll(spawned);
      }
      return true;
    }

    /** One pass of the quantum's loop: whether it goes on, and if not whether it ended well. */
    method QuantumStep(prog: Program<M>, ends: (M, Thread) -> bool, ghost step: Step<M>, ghost left: nat)
        returns (goesOn: bool, ok: bool)
      requires left > 0 && Implements(step, prog)
      modifies this
      ensures RunFor(step, ends, left, old(State())) ==
        if goesOn then RunFor(step, ends, left - 1, State()) else if ok then Ran(State()) else Failed
    {
      if threads == [] || threads[0].halted {
        return false, true;
      }
      if ends(shared.mem, View(threads[0])) {
        threads := threads[0 := threads[0].(halted := true)];
        return false, true;
      }
      ok := DispatchForThread(prog);
      goesOn := ok && (threads == [] || !threads[0].state.Blocked?);
    }

    /** False when an instruction faulted. */
    method RunThreadQuanta(prog: Program<M>, ends: (M, Thread) -> bool, quanta: nat, ghost step: Step<M>)
        returns (ok: bool)
      requires Implements(step, prog)
      modifies this
      ensures RunFor(step, ends, quanta, old(State())) == if ok then Ran(State()) else Failed
    {
      ghost var whole := RunFor(step, ends, quanta, State());
      var i, goesOn := 0, true;
      while i < quanta
        invariant i <= quanta
        invariant RunFor(step, ends, quanta - i, State()) == whole
      {
        goesOn, ok := QuantumStep(prog, ends, step, quanta - i);
        if !goesOn {
          return;
        }
        i := i + 1;
      }
      return true;
    }

    method RetainLive()
      modifies this`threads
      ensures threads == Retain(old(threads))
    {
      ghost var was, whole := threads, Retain(threads);
      assert was[0..] == was;
      var kept: seq<VmThread> := [];
      var i := 0;
      while i < |threads|
        invariant i <= |threads| && threads == was
        invariant kept + Retain(was[i..]) == whole
      {
        RetainStep(kept, was, i);
        if !threads[i].halted {
          kept := kept + [threads[i]];
        }
        i := i + 1;
      }
      threads := kept;
    }

    /** The body of the loop in `run`. */
    method RunRound(prog: Program<M>, ends: (M, Thread) -> bool, quanta: nat, ghost step: Step<M>)
        returns (r: RoundResult<M>)
      requires Implements(step, prog)
      modifies this
      ensures Round(step, ends, quanta, old(State())) == if r.Continue? then RoundResult.Continue(State()) else r
    {
      ghost var was := State();
      RetainLive();
      if threads == [] {
        return RoundResult.Finished;
      }
      var found := RotateToReady();
      if !found {
        return RoundResult.Deadlock;
      }
      assert State() == Lined(was);
      var ok := RunThreadQuanta(prog, ends, quanta, step);
      if !ok {
        return RoundResult.Faulted;
      }
      if |threads| > 1 {
        var front := threads[0];
        threads := threads[1..];
        if !front.halted {
          threads := threads + [front];
        }
      }
      return RoundResult.Continue(State());
    }
  }
}
