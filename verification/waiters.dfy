/**
 Whether a thread queued as blocked could go on after all. It waits on the
 channel its operand named when it blocked; what it would retry is the operation
 on the channel its operand names now.
 */
module Waiters {
  import opened Memory
  import opened Heaps
  import opened Threads
  import opened RunLoops
  import opened RunLoopLaws

  /** What the next operation of `t` would wait on: its channel, or nil for an `alt`. */
  function Named<M>(prog: Program<M>, mem: M, t: Thread): Option<HeapId> {
    match prog(Bare(t))
    case Send(channel, _, _, _) => Some(channel(mem))
    case Recv(channel, _, _) => Some(channel(mem))
    case Alt(_, _, _) => Some(NIL)
    case _ => None
  }

  /** The operand of `t` still names the channel that `t` waits on. */
  predicate Steady<M>(prog: Program<M>, mem: M, t: Thread) {
    t.blockedOn == Named(prog, mem, t)
  }

  /** A channel that the next operation of `t` names has been freed. */
  predicate Gone<M>(prog: Program<M>, mem: M, channels: Channels, t: Thread) {
    match prog(Bare(t))
    case Send(channel, _, _, _) => channel(mem) in channels && channels[channel(mem)].Freed?
    case Recv(channel, _, _) => channel(mem) in channels && channels[channel(mem)].Freed?
    case Alt(entries, _, _) =>
      exists k :: 0 <= k < |entries| && entries[k].channel in channels && channels[entries[k].channel].Freed?
    case _ => false
  }

  /** `t` waits where its operand says, on channels that are still there. */
  predicate Settled<M>(prog: Program<M>, mem: M, channels: Channels, t: Thread) {
    Steady(prog, mem, t) && !Gone(prog, mem, channels, t)
  }

  /** The operand of `t` has come to name another channel, and not one that makes it wait. */
  predicate Redirected<M>(prog: Program<M>, m: Machine<M>, t: Thread) {
    match prog(Bare(t))
    case Send(channel, _, _, _) =>
      var ch := channel(m.mem); t.blockedOn != Some(ch) && (ch in m.channels ==> !m.channels[ch].Full?)
    case Recv(channel, _, _) =>
      var ch := channel(m.mem); t.blockedOn != Some(ch) && (ch in m.channels ==> !m.channels[ch].Empty?)
    case _ => false
  }

  /** Nothing wakes `t`, and yet it need not wait: it was redirected, or a channel it waits on is gone. */
  predicate Stranded<M>(prog: Program<M>, m: Machine<M>, t: Thread) {
    Redirected(prog, m, t) || (Steady(prog, m.mem, t) && Gone(prog, m.mem, m.channels, t))
  }

  /** A waiting thread would block again if and only if it was not stranded. */
  lemma WaiterBlocksExactly<M>(prog: Program<M>, m: Machine<M>, t: Thread)
    requires Waits(prog, m.channels, t)
    ensures WouldBlock(prog, m, t) <==> !Stranded(prog, m, t)
    ensures Settled(prog, m.mem, m.channels, t) ==> WouldBlock(prog, m, t)
  {
    match prog(Bare(t)) {
      case Alt(entries, _, _) => ScanNone(entries, m.channels, 0);
      case _ =>
    }
  }

  /** The same channels, with other contents, in which `t` waits just as well. */
  predicate Alternative<M>(prog: Program<M>, m: Machine<M>, t: Thread, channels: Channels) {
    && channels.Keys == m.channels.Keys
    && (forall ch :: ch in channels ==> (channels[ch].Freed? <==> m.channels[ch].Freed?))
    && Waits(prog, channels, t)
  }

  /**
   Being settled is what it takes: a waiting thread would block whatever the
   channels hold, as long as it waits, if and only if its operand still names the
   channel it waits on and no channel it waits on is gone.
   */
  lemma SettledIsNeeded<M>(prog: Program<M>, m: Machine<M>, t: Thread)
    requires Waits(prog, m.channels, t)
    ensures Settled(prog, m.mem, m.channels, t) <==>
      forall channels: Channels :: Alternative(prog, m, t, channels) ==> WouldBlock(prog, m.(channels := channels), t)
  {
    if Settled(prog, m.mem, m.channels, t) {
      forall channels: Channels | Alternative(prog, m, t, channels)
        ensures WouldBlock(prog, m.(channels := channels), t)
      {
        WaiterBlocksExactly(prog, m.(channels := channels), t);
      }
    } else {
      var channels := Unblocking(prog, m, t);
      WaiterBlocksExactly(prog, m.(channels := channels), t);
    }
  }

  /** Contents that let a thread go that is not settled. */
  lemma Unblocking<M>(prog: Program<M>, m: Machine<M>, t: Thread) returns (channels: Channels)
    requires Waits(prog, m.channels, t) && !Settled(prog, m.mem, m.channels, t)
    ensures Alternative(prog, m, t, channels) && Stranded(prog, m.(channels := channels), t)
  {
    var c := Named(prog, m.mem, t).value;
    channels := m.channels;
    if !Steady(prog, m.mem, t) && Usable(m.channels, c) {
      channels := m.channels[c := if prog(Bare(t)).Send? then Empty else Full([])];
    }
  }

  // --- Along a run ---

  ghost predicate AllSettled<M>(prog: Program<M>, m: Machine<M>) {
    forall t :: t in m.queue && !Ready(t) ==> Settled(prog, m.mem, m.channels, t)
  }

  /** The turn changed no channel word that the operand of a thread left waiting reads, and freed no such channel. */
  ghost predicate Undisturbed<M>(prog: Program<M>, m: Machine<M>, after: Machine<M>) {
    forall t :: t in m.queue && t in after.queue && !Ready(t) ==>
      && Named(prog, after.mem, t) == Named(prog, m.mem, t)
      && (Gone(prog, after.mem, after.channels, t) ==> Gone(prog, m.mem, m.channels, t))
  }

  lemma WaitersStay<M>(prog: Program<M>, m: Machine<M>, t: Thread)
    requires Execute(prog, m).Done? && t in Execute(prog, m).m.queue && !Ready(t)
    ensures t in m.queue
  {
    match prog(Bare(m.current)) {
      case Alt(entries, chosen, raise) =>
        SelectedStay(m, entries, chosen, raise, Execution<M>.Blocked(NIL), t);
      case NbAlt(entries, chosen, none, raise) =>
        SelectedStay(m, entries, chosen, raise, Done(m.(current := Bare(none))), t);
      case _ =>
    }
  }

  lemma SelectedStay<M>(m: Machine<M>, entries: seq<AltEntry<M>>, chosen: (M, nat, Buffer) -> (M, Thread),
                        raise: Raise<M>, otherwise: Execution<M>, t: Thread)
    requires otherwise.Done? ==> otherwise.m.queue == m.queue
    requires Selecting(m, entries, chosen, raise, otherwise).Done? && !Ready(t)
    requires t in Selecting(m, entries, chosen, raise, otherwise).m.queue
    ensures t in m.queue
  {
  }

  lemma ResumedQueue<M>(m: Machine<M>, t: Thread)
    requires t in Resumed(m).queue
    ensures t in m.queue && Resumed(m).mem == m.mem
  {
  }

  /** A thread waiting after a turn waited before it, or has just been queued with its operand read. */
  lemma WaiterOrigin<M>(prog: Program<M>, m: Machine<M>, t: Thread)
    requires m.status == Running && t in Turn(prog, m).queue && !Ready(t)
    ensures t in m.queue || Settled(prog, Turn(prog, m).mem, Turn(prog, m).channels, t)
  {
    if m.halted {
      if m.queue != [] {
        ResumedQueue(m.(exits := m.exits + [m.current.pid]), t);
      }
    } else {
      match Execute(prog, m)
      case Fault =>
      case Blocked(ch) =>
        if FirstReady(m.queue) < |m.queue| {
          ResumedQueue(Suspended(m, Some(ch)), t);
          JustBlocked(prog, m, ch);
        }
      case Done(next) => TickedQueue(prog, m, next, t);
    }
  }

  lemma JustBlocked<M>(prog: Program<M>, m: Machine<M>, ch: HeapId)
    requires Execute(prog, m) == Execution<M>.Blocked(ch)
    ensures Settled(prog, m.mem, m.channels, m.current.(blockedOn := Some(ch)))
  {
    assert Bare(m.current.(blockedOn := Some(ch))) == Bare(m.current);
    match prog(Bare(m.current)) {
      case Alt(entries, _, _) => ScanNone(entries, m.channels, 0);
      case _ =>
    }
  }

  lemma TickedQueue<M>(prog: Program<M>, m: Machine<M>, next: Machine<M>, t: Thread)
    requires Execute(prog, m) == Done(next) && t in Ticked(next).queue && !Ready(t)
    ensures t in m.queue
  {
    if next.quantum + 1 >= THREAD_QUANTUM && next.queue != [] {
      ResumedQueue(Suspended(next.(quantum := 0), None), t);
    }
    WaitersStay(prog, m, t);
  }

  /** A turn, or a collection, keeps every waiter settled if and only if it disturbs none of them. */
  lemma StepKeepsSettled<M>(prog: Program<M>, m: Machine<M>, after: Machine<M>)
    requires Follows(prog, m, after) && AllSettled(prog, m)
    ensures AllSettled(prog, after) <==> Undisturbed(prog, m, after)
  {
    if Undisturbed(prog, m, after) {
      forall t | t in after.queue && !Ready(t) ensures Settled(prog, after.mem, after.channels, t) {
        if !Collected(m, after) {
          WaiterOrigin(prog, m, t);
        }
      }
    }
  }

  ghost predicate UndisturbedUpTo<M(!new)>(prog: Program<M>, run: seq<Machine<M>>, n: nat)
    requires n < |run|
  {
    forall i, j :: 0 <= i < j <= n && j == i + 1 ==> Undisturbed(prog, run[i], run[j])
  }

  /** Over a run: every waiter is settled in every state if and only if no step disturbed one. */
  lemma {:induction false} RunsSettledExactly<M(!new)>(prog: Program<M>, run: seq<Machine<M>>, n: nat)
    requires IsRun(prog, run) && n < |run|
    ensures (forall i :: 0 <= i <= n ==> AllSettled(prog, run[i])) <==> UndisturbedUpTo(prog, run, n)
  {
    if n > 0 {
      RunsSettledExactly(prog, run, n - 1);
      RunStep(prog, run, n - 1, n);
      UndisturbedStep(prog, run, n - 1, n);
    }
  }

  lemma RunStep<M(!new)>(prog: Program<M>, run: seq<Machine<M>>, i: nat, j: nat)
    requires IsRun(prog, run) && j == i + 1 < |run|
    ensures AllSettled(prog, run[i]) ==> (AllSettled(prog, run[j]) <==> Undisturbed(prog, run[i], run[j]))
  {
    assert Follows(prog, run[i], run[j]);
    if AllSettled(prog, run[i]) {
      StepKeepsSettled(prog, run[i], run[j]);
    }
  }

  lemma UndisturbedStep<M(!new)>(prog: Program<M>, run: seq<Machine<M>>, i: nat, j: nat)
    requires j == i + 1 < |run|
    ensures UndisturbedUpTo(prog, run, j) <==> UndisturbedUpTo(prog, run, i) && Undisturbed(prog, run[i], run[j])
  {
  }

  /** In every reachable state, a thread queued as blocked would block again if and only if it was not stranded. */
  lemma WaitersBlockExactly<M(!new)>(prog: Program<M>, run: seq<Machine<M>>, i: nat, t: Thread)
    requires IsRun(prog, run) && i < |run| && t in run[i].queue && !Ready(t)
    ensures WouldBlock(prog, run[i], t) <==> !Stranded(prog, run[i], t)
  {
    RunsKeepInv(prog, run, i);
    WaiterBlocksExactly(prog, run[i], t);
  }

  /** While no step disturbs a waiter, every thread queued as blocked has an operation that cannot succeed. */
  lemma WaitersBlock<M(!new)>(prog: Program<M>, run: seq<Machine<M>>, i: nat, t: Thread)
    requires IsRun(prog, run) && i < |run| && UndisturbedUpTo(prog, run, i)
    requires t in run[i].queue && !Ready(t)
    ensures WouldBlock(prog, run[i], t)
  {
    RunsSettledExactly(prog, run, i);
    RunsKeepInv(prog, run, i);
    WaiterBlocksExactly(prog, run[i], t);
  }

  // --- Deadlock ---

  lemma DeadlockedQueue<M(!new)>(prog: Program<M>, run: seq<Machine<M>>, i: nat)
    requires IsRun(prog, run) && 0 < i < |run| && run[i].status == Deadlock
    ensures forall t :: t in run[i].queue ==> !Ready(t)
    ensures run[i].halted ==> run[i].queue != []
    ensures !run[i].halted ==> WouldBlock(prog, run[i], run[i].current)
  {
    var before, after := run[i - 1], run[i];
    assert Follows(prog, before, after) && after == Turn(prog, before);
    DeadlockTurn(prog, before);
    forall t | t in after.queue ensures !Ready(t) {
      var k :| 0 <= k < |before.queue| && before.queue[k] == t;
    }
    if !before.halted {
      SameBlocks(prog, before, after);
    }
  }

  /** A reported deadlock is final if and only if no waiting thread was stranded. */
  lemma DeadlockExactly<M(!new)>(prog: Program<M>, run: seq<Machine<M>>, i: nat)
    requires IsRun(prog, run) && 0 < i < |run| && run[i].status == Deadlock
    ensures Stuck(prog, run[i]) <==> forall t :: t in run[i].queue ==> !Stranded(prog, run[i], t)
  {
    DeadlockedQueue(prog, run, i);
    forall t | t in run[i].queue ensures WouldBlock(prog, run[i], t) <==> !Stranded(prog, run[i], t) {
      WaitersBlockExactly(prog, run, i, t);
    }
  }

  /** While no step disturbs a waiter, a deadlock is reported only when no thread could take another step. */
  lemma DeadlockIsFinal<M(!new)>(prog: Program<M>, run: seq<Machine<M>>, i: nat)
    requires IsRun(prog, run) && 0 < i < |run| && run[i].status == Deadlock
    requires UndisturbedUpTo(prog, run, i)
    ensures Stuck(prog, run[i])
  {
    DeadlockedQueue(prog, run, i);
    forall t | t in run[i].queue ensures WouldBlock(prog, run[i], t) {
      WaitersBlock(prog, run, i, t);
    }
  }
}
