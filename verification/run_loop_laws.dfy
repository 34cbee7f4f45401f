/** What holds in every reachable state of the main run loop. */
module RunLoopLaws {
  import opened Memory
  import opened Heaps
  import opened Threads
  import opened RunLoops

  /** Thread `t`, queued as blocked, waits on a channel that does not allow its operation now, or is gone. */
  predicate Waits<M>(prog: Program<M>, channels: Channels, t: Thread) {
    match prog(Bare(t))
    case Send(_, _, _, _) =>
      t.blockedOn.Some? && t.blockedOn.value in channels && !channels[t.blockedOn.value].Empty?
    case Recv(_, _, _) =>
      t.blockedOn.Some? && t.blockedOn.value in channels && !channels[t.blockedOn.value].Full?
    case Alt(entries, _, _) => t.blockedOn == Some(NIL) && !BadTable(entries) && NoneCanGo(entries, channels)
    case _ => false
  }

  predicate NoneCanGo<M>(entries: seq<AltEntry<M>>, channels: Channels) {
    forall k :: 0 <= k < |entries| ==> entries[k].channel in channels && !EntryReady(entries[k], channels)
  }

  ghost predicate QueueOk<M>(prog: Program<M>, channels: Channels, queue: seq<Thread>) {
    forall t :: t in queue && !Ready(t) ==> Waits(prog, channels, t)
  }

  function Log(log: map<HeapId, seq<Buffer>>, ch: HeapId): seq<Buffer> {
    if ch in log then log[ch] else []
  }

  function Pending(channels: Channels, ch: HeapId): seq<Buffer> {
    if ch in channels && channels[ch].Full? then [channels[ch].data] else []
  }

  /** A channel has delivered, in order, what was sent on it but for what it still holds, or held when it was freed. */
  predicate Delivers(slots: Channels, sent: map<HeapId, seq<Buffer>>, received: map<HeapId, seq<Buffer>>, ch: HeapId) {
    && Log(received, ch) <= Log(sent, ch)
    && (!(ch in slots && slots[ch].Freed?) ==> Log(sent, ch) == Log(received, ch) + Pending(slots, ch))
  }

  ghost predicate InOrder<M>(m: Machine<M>) {
    forall ch :: Delivers(m.channels, m.sent, m.received, ch)
  }

  ghost predicate Fresh<M>(m: Machine<M>) {
    && m.nextChannel > NIL
    && (forall ch :: ch in m.channels ==> NIL < ch < m.nextChannel)
  }

  ghost predicate Inv<M>(prog: Program<M>, m: Machine<M>) {
    && (!m.halted ==> Ready(m.current))
    && QueueOk(prog, m.channels, m.queue)
    && InOrder(m)
    && Fresh(m)
  }

  lemma {:induction false} ScanNone<M>(entries: seq<AltEntry<M>>, channels: Channels, from: nat)
    requires from <= |entries|
    ensures ScanAlt(entries, channels, from) == NoneReady <==>
      forall k :: from <= k < |entries| ==> Usable(channels, entries[k].channel) && !EntryReady(entries[k], channels)
    decreases |entries| - from
  {
    if from < |entries| && Usable(channels, entries[from].channel) && !EntryReady(entries[from], channels) {
      ScanNone(entries, channels, from + 1);
    }
  }

  /** A channel is as it was, or has been freed. */
  predicate SameOrFreed(before: Channels, after: Channels, ch: HeapId) {
    ch in before ==> ch in after && (after[ch] == before[ch] || after[ch].Freed?)
  }

  /** A blocked thread stays blocked rightly while the channels it waits on keep their state or are freed. */
  lemma StillBlocked<M>(prog: Program<M>, before: Channels, after: Channels, t: Thread)
    requires Waits(prog, before, t)
    requires t.blockedOn == Some(NIL) ==> forall ch :: ch in before ==> SameOrFreed(before, after, ch)
    requires t.blockedOn.Some? ==> SameOrFreed(before, after, t.blockedOn.value)
    ensures Waits(prog, after, t)
  {
    match prog(Bare(t)) {
      case Alt(entries, _, _) =>
        assert forall k :: 0 <= k < |entries| ==> SameOrFreed(before, after, entries[k].channel);
      case _ =>
    }
  }

  /** No missed wake-up: after a transfer on `ch`, whoever is still queued as blocked cannot proceed. */
  lemma WakeKeepsQueue<M>(prog: Program<M>, channels: Channels, queue: seq<Thread>, ch: HeapId, slot: Slot)
    requires QueueOk(prog, channels, queue)
    ensures QueueOk(prog, channels[ch := slot], Woken(queue, ch))
  {
    var woken := Woken(queue, ch);
    forall t | t in woken && !Ready(t) ensures Waits(prog, channels[ch := slot], t) {
      var i :| 0 <= i < |woken| && woken[i] == t;
      assert t == queue[i] && t in queue;
      StillBlocked(prog, channels, channels[ch := slot], t);
    }
  }

  lemma TransferKeeps<M>(prog: Program<M>, m: Machine<M>, ch: HeapId, data: Buffer)
    requires QueueOk(prog, m.channels, m.queue) && InOrder(m) && Fresh(m) && ch in m.channels
    ensures m.channels[ch].Empty? ==> var d := Deposited(m, ch, data);
      QueueOk(prog, d.channels, d.queue) && InOrder(d) && Fresh(d)
    ensures m.channels[ch] == Full(data) ==> var w := Withdrawn(m, ch, data);
      QueueOk(prog, w.channels, w.queue) && InOrder(w) && Fresh(w)
  {
    if m.channels[ch].Empty? {
      var d := Deposited(m, ch, data);
      WakeKeepsQueue(prog, m.channels, m.queue, ch, Full(data));
      forall c ensures Delivers(d.channels, d.sent, d.received, c) {
        assert Delivers(m.channels, m.sent, m.received, c);
      }
    } else if m.channels[ch] == Full(data) {
      var w := Withdrawn(m, ch, data);
      WakeKeepsQueue(prog, m.channels, m.queue, ch, Empty);
      forall c ensures Delivers(w.channels, w.sent, w.received, c) {
        assert Delivers(m.channels, m.sent, m.received, c);
      }
    }
  }

  /** Channels freed, and others as they were: nobody who waits can go on by that, and no delivery changes. */
  lemma FreeingKeeps<M>(prog: Program<M>, m: Machine<M>, after: Machine<M>)
    requires QueueOk(prog, m.channels, m.queue) && InOrder(m) && Fresh(m)
    requires after.channels.Keys == m.channels.Keys && forall ch :: SameOrFreed(m.channels, after.channels, ch)
    requires after.sent == m.sent && after.received == m.received && after.nextChannel == m.nextChannel
    ensures QueueOk(prog, after.channels, m.queue) && InOrder(after) && Fresh(after)
  {
    forall t | t in m.queue && !Ready(t) ensures Waits(prog, after.channels, t) {
      StillBlocked(prog, m.channels, after.channels, t);
    }
    forall c ensures Delivers(after.channels, after.sent, after.received, c) {
      assert Delivers(m.channels, m.sent, m.received, c) && SameOrFreed(m.channels, after.channels, c);
    }
  }

  lemma AppliedKeeps<M>(prog: Program<M>, m: Machine<M>, e: Effect<M>)
    requires QueueOk(prog, m.channels, m.queue) && InOrder(m) && Fresh(m)
    ensures Inv(prog, Applied(m, e))
  {
    FreeingKeeps(prog, m, m.(channels := Without(m.channels, e.dropped)));
  }

  lemma NewChannelKeeps<M>(prog: Program<M>, m: Machine<M>)
    requires QueueOk(prog, m.channels, m.queue) && InOrder(m) && Fresh(m)
    ensures var made := WithChannel(m); QueueOk(prog, made.channels, made.queue) && InOrder(made) && Fresh(made)
  {
    var made := WithChannel(m);
    forall t | t in m.queue && !Ready(t) ensures Waits(prog, made.channels, t) {
      StillBlocked(prog, m.channels, made.channels, t);
    }
    forall c ensures Delivers(made.channels, made.sent, made.received, c) {
      assert Delivers(m.channels, m.sent, m.received, c);
    }
  }

  lemma SelectingKeeps<M>(prog: Program<M>, m: Machine<M>, entries: seq<AltEntry<M>>,
                          chosen: (M, nat, Buffer) -> (M, Thread), i: nat)
    requires Inv(prog, m) && !m.halted
    requires i < |entries| && entries[i].channel in m.channels && EntryReady(entries[i], m.channels)
    ensures Inv(prog, Transferred(m, entries, chosen, i))
  {
    var e := entries[i];
    TransferKeeps(prog, m, e.channel, if e.isSend then e.payload(m.mem) else m.channels[e.channel].data);
  }

  lemma CaughtKeeps<M>(prog: Program<M>, m: Machine<M>, raise: Raise<M>)
    requires Inv(prog, m) && !m.halted && Caught(m, raise).Done?
    ensures Inv(prog, Caught(m, raise).m)
  {
  }

  lemma AltKeeps<M>(prog: Program<M>, m: Machine<M>, entries: seq<AltEntry<M>>,
                    chosen: (M, nat, Buffer) -> (M, Thread), raise: Raise<M>, otherwise: Execution<M>)
    requires Inv(prog, m) && !m.halted && Selecting(m, entries, chosen, raise, otherwise).Done?
    requires otherwise.Done? ==> Inv(prog, otherwise.m)
    ensures Inv(prog, Selecting(m, entries, chosen, raise, otherwise).m)
  {
    if BadTable(entries) {
      CaughtKeeps(prog, m, raise);
    } else if ScanAlt(entries, m.channels, 0).Selected? {
      SelectingKeeps(prog, m, entries, chosen, ScanAlt(entries, m.channels, 0).idx);
    }
  }

  lemma ExecuteKeeps<M>(prog: Program<M>, m: Machine<M>)
    requires Inv(prog, m) && !m.halted && Execute(prog, m).Done?
    ensures Inv(prog, Execute(prog, m).m)
  {
    match prog(Bare(m.current)) {
      case Compute(effect) => AppliedKeeps(prog, m, effect(m.mem));
      case NewChannel(bind) =>
        NewChannelKeeps(prog, m);
        AppliedKeeps(prog, WithChannel(m), bind(m.mem, m.nextChannel));
      case Send(channel, payload, _, raise) =>
        if Usable(m.channels, channel(m.mem)) {
          TransferKeeps(prog, m, channel(m.mem), payload(m.mem));
        } else {
          CaughtKeeps(prog, m, raise);
        }
      case Recv(channel, _, raise) =>
        if Usable(m.channels, channel(m.mem)) {
          TransferKeeps(prog, m, channel(m.mem), m.channels[channel(m.mem)].data);
        } else {
          CaughtKeeps(prog, m, raise);
        }
      case Alt(entries, chosen, raise) => AltKeeps(prog, m, entries, chosen, raise, Execution<M>.Blocked(NIL));
      case NbAlt(entries, chosen, none, raise) =>
        AltKeeps(prog, m, entries, chosen, raise, Done(m.(current := Bare(none))));
    }
  }

  /** A thread whose instruction blocks is queued on the channel that does not allow it. */
  lemma BlockedWaits<M>(prog: Program<M>, m: Machine<M>)
    requires Ready(m.current) && Execute(prog, m).Blocked?
    ensures Waits(prog, m.channels, m.current.(blockedOn := Some(Execute(prog, m).channel)))
  {
    var t := m.current.(blockedOn := Some(Execute(prog, m).channel));
    assert Bare(t) == Bare(m.current);
    match prog(Bare(m.current)) {
      case Alt(entries, _, _) =>
        if !BadTable(entries) {
          ScanNone(entries, m.channels, 0);
        }
      case _ =>
    }
  }

  lemma ResumeKeeps<M>(prog: Program<M>, m: Machine<M>)
    requires QueueOk(prog, m.channels, m.queue) && InOrder(m) && Fresh(m)
    ensures Inv(prog, Resumed(m))
  {
    var k := FirstReady(m.queue);
    if k < |m.queue| {
      forall t | t in m.queue[k + 1..] + m.queue[..k] ensures t in m.queue {
      }
    }
  }

  /** One turn of the loop keeps the invariant. */
  lemma TurnKeepsInv<M>(prog: Program<M>, m: Machine<M>)
    requires Inv(prog, m) && m.status == Running
    ensures Inv(prog, Turn(prog, m))
  {
    if m.halted {
      ResumeKeeps(prog, m.(exits := m.exits + [m.current.pid]));
    } else {
      match Execute(prog, m)
      case Fault =>
      case Blocked(ch) =>
        BlockedWaits(prog, m);
        ResumeKeeps(prog, Suspended(m, Some(ch)));
      case Done(next) =>
        ExecuteKeeps(prog, m);
        ResumeKeeps(prog, Suspended(next.(quantum := 0), None));
    }
  }

  ghost predicate Initial<M>(m: Machine<M>) {
    && m.status == Running && !m.halted && Ready(m.current) && m.queue == [] && m.channels == map[]
    && m.nextChannel == HEAP_ID_BASE && m.sent == map[] && m.received == map[] && m.quantum == 0 && m.exits == []
  }

  /** Between two turns a collection may free channels, and whatever else memory holds. */
  ghost predicate Collected<M>(m: Machine<M>, after: Machine<M>) {
    exists dropped: set<HeapId> :: after == m.(mem := after.mem, channels := Without(m.channels, dropped))
  }

  ghost predicate Follows<M>(prog: Program<M>, m: Machine<M>, after: Machine<M>) {
    m.status == Running && (after == Turn(prog, m) || Collected(m, after))
  }

  ghost predicate IsRun<M(!new)>(prog: Program<M>, run: seq<Machine<M>>) {
    && run != [] && Initial(run[0])
    && forall i, j :: 0 <= i < j < |run| && j == i + 1 ==> Follows(prog, run[i], run[j])
  }

  /**
   In every reachable state, a thread queued as blocked waits on a channel that
   does not allow its operation, and every channel delivers in the order of sending.
   */
  lemma {:induction false} RunsKeepInv<M(!new)>(prog: Program<M>, run: seq<Machine<M>>, i: nat)
    requires IsRun(prog, run) && i < |run|
    ensures Inv(prog, run[i])
  {
    if i == 0 {
      InitialInv(prog, run[0]);
    } else {
      RunsKeepInv(prog, run, i - 1);
      var before, after := run[i - 1], run[i];
      assert Follows(prog, before, after);
      if Collected(before, after) {
        CollectedKeepsInv(prog, before, after);
      } else {
        TurnKeepsInv(prog, before);
      }
    }
  }

  lemma CollectedKeepsInv<M>(prog: Program<M>, m: Machine<M>, after: Machine<M>)
    requires Inv(prog, m) && Collected(m, after)
    ensures Inv(prog, after)
  {
    FreeingKeeps(prog, m, after);
  }

  lemma InitialInv<M>(prog: Program<M>, m: Machine<M>)
    requires Initial(m)
    ensures Inv(prog, m)
  {
  }

  /** If `t` ran its next instruction now, it would block. */
  predicate WouldBlock<M>(prog: Program<M>, m: Machine<M>, t: Thread) {
    Execute(prog, m.(current := t)).Blocked?
  }

  /** A turn that ends in deadlock found no ready thread, and changed no queue, channel or memory. */
  lemma DeadlockTurn<M>(prog: Program<M>, m: Machine<M>)
    requires m.status == Running && Turn(prog, m).status == Deadlock
    ensures var after := Turn(prog, m);
      && (forall k :: 0 <= k < |m.queue| ==> !Ready(m.queue[k]))
      && (if m.halted then m.queue != [] && after == m.(status := Deadlock, exits := m.exits + [m.current.pid])
          else Execute(prog, m).Blocked? && after == m.(status := Deadlock))
  {
    if !m.halted {
      match Execute(prog, m)
      case Fault =>
      case Blocked(_) =>
      case Done(next) => DoneStatus(prog, m);
    }
  }

  /** No thread, running or queued, can take another step, and there is a thread. */
  ghost predicate Stuck<M>(prog: Program<M>, m: Machine<M>) {
    && (forall t :: t in m.queue ==> WouldBlock(prog, m, t))
    && (m.halted ==> m.queue != [])
    && (!m.halted ==> WouldBlock(prog, m, m.current))
  }

  lemma SameBlocks<M>(prog: Program<M>, before: Machine<M>, after: Machine<M>)
    requires Execute(prog, before).Blocked? && after == before.(status := after.status)
    ensures WouldBlock(prog, after, after.current)
  {
  }

  /** Conversely, while some thread is ready the loop goes on. */
  lemma ReadyMeansNoDeadlock<M>(prog: Program<M>, m: Machine<M>)
    requires m.status == Running && exists k :: 0 <= k < |m.queue| && Ready(m.queue[k])
    ensures Turn(prog, m).status != Deadlock
  {
    if !m.halted {
      match Execute(prog, m)
      case Fault =>
      case Blocked(ch) =>
      case Done(next) => DoneStatus(prog, m);
    }
  }

  lemma DoneStatus<M>(prog: Program<M>, m: Machine<M>)
    requires Execute(prog, m).Done?
    ensures var next := Execute(prog, m).m;
      next.status == m.status && next.exits == m.exits && next.quantum == m.quantum
  {
    ExecuteCarries(prog, m);
  }

  // --- No thread and no saved field is lost ---

  function BareAll(queue: seq<Thread>): (r: seq<Thread>)
    ensures |r| == |queue| && forall i :: 0 <= i < |queue| ==> r[i] == Bare(queue[i])
  {
    seq(|queue|, i requires 0 <= i < |queue| => Bare(queue[i]))
  }

  /** Every thread's saved state, whether it runs or waits. */
  function Everyone<M>(m: Machine<M>): multiset<Thread> {
    multiset(BareAll(m.queue)) + multiset{Bare(m.current)}
  }

  /** Bringing the queue's k-th thread out and the ones before it to the back. */
  lemma RotationKeeps(q: seq<Thread>, k: nat)
    requires k < |q|
    ensures multiset(BareAll(q[k + 1..] + q[..k])) + multiset{Bare(q[k])} == multiset(BareAll(q))
  {
    var a, b := BareAll(q[..k]), BareAll(q[k + 1..]);
    assert BareAll(q[k + 1..] + q[..k]) == b + a;
    assert BareAll(q) == a + [Bare(q[k])] + b;
  }

  /** Switching threads, whichever way, keeps every thread and every saved field. */
  lemma SwitchLosesNothing<M>(m: Machine<M>, blockedOn: Option<HeapId>)
    requires FirstReady(Suspended(m, blockedOn).queue) < |m.queue| + 1
    ensures Everyone(Resumed(Suspended(m, blockedOn))) == Everyone(m)
  {
    var q := Suspended(m, blockedOn).queue;
    RotationKeeps(q, FirstReady(q));
    assert BareAll(q) == BareAll(m.queue) + [Bare(m.current)];
  }

  /** The threads that still run or wait: the current one counts until it has halted. */
  function Living<M>(m: Machine<M>): multiset<Thread> {
    multiset(BareAll(m.queue)) + if m.halted then multiset{} else multiset{Bare(m.current)}
  }

  /** The instruction ends a quantum while others wait. */
  predicate SwitchedOut<M>(m: Machine<M>, next: Machine<M>) {
    m.quantum + 1 >= THREAD_QUANTUM && next.queue != []
  }

  lemma HandOverKeeps<M>(m: Machine<M>)
    requires m.halted
    ensures Living(Resumed(m)) == Living(m)
  {
    if FirstReady(m.queue) < |m.queue| {
      RotationKeeps(m.queue, FirstReady(m.queue));
    }
  }

  /**
   No turn loses a thread or a saved field. After an instruction there are
   exactly the threads it left, but that a switch keeps the current one even if
   it halted; after a halt, after blocking and after a fault, the ones there were.
   */
  lemma TurnLosesNoThread<M>(prog: Program<M>, m: Machine<M>)
    requires m.status == Running
    ensures m.halted || !Execute(prog, m).Done? ==> Living(Turn(prog, m)) == Living(m)
    ensures !m.halted && Execute(prog, m).Done? ==>
      var next := Execute(prog, m).m;
      Living(Turn(prog, m)) == if SwitchedOut(m, next) then Everyone(next) else Living(next)
  {
    if m.halted {
      if m.queue != [] {
        HandOverKeeps(m.(exits := m.exits + [m.current.pid]));
      }
    } else {
      match Execute(prog, m)
      case Fault =>
      case Blocked(ch) =>
        if FirstReady(m.queue) < |m.queue| {
          SwitchKeepsLiving(m, Some(ch));
        }
      case Done(next) =>
        DoneStatus(prog, m);
        if SwitchedOut(m, next) {
          SwitchKeepsLiving(next.(quantum := 0), None);
        }
    }
  }

  lemma SwitchKeepsLiving<M>(m: Machine<M>, blockedOn: Option<HeapId>)
    requires FirstReady(m.queue) < |m.queue| || blockedOn.None?
    ensures !Resumed(Suspended(m, blockedOn)).halted && Living(Resumed(Suspended(m, blockedOn))) == Everyone(m)
  {
    ReadyKept(m, blockedOn);
    SwitchLosesNothing(m, blockedOn);
  }

  lemma ReadyKept<M>(m: Machine<M>, blockedOn: Option<HeapId>)
    requires FirstReady(m.queue) < |m.queue| || blockedOn.None?
    ensures FirstReady(Suspended(m, blockedOn).queue) < |m.queue| + 1
  {
    var q := Suspended(m, blockedOn).queue;
    if FirstReady(m.queue) < |m.queue| {
      assert q[FirstReady(m.queue)] == m.queue[FirstReady(m.queue)];
    }
    assert q[|m.queue|].blockedOn == blockedOn;
  }

  /** A run in which nothing is ever collected. */
  ghost predicate TakesTurns<M(!new)>(prog: Program<M>, run: seq<Machine<M>>) {
    && run != [] && Initial(run[0])
    && forall i, j :: 0 <= i < j < |run| && j == i + 1 ==> TakesTurn(prog, run[i], run[j])
  }

  ghost predicate TakesTurn<M>(prog: Program<M>, m: Machine<M>, after: Machine<M>) {
    m.status == Running && after == Turn(prog, m)
  }

  lemma TurnsAreRun<M(!new)>(prog: Program<M>, run: seq<Machine<M>>)
    requires TakesTurns(prog, run)
    ensures IsRun(prog, run)
  {
    forall i, j | 0 <= i < j < |run| && j == i + 1 ensures Follows(prog, run[i], run[j]) {
      assert TakesTurn(prog, run[i], run[j]);
    }
  }

  lemma RunExtends<M(!new)>(prog: Program<M>, run: seq<Machine<M>>, last: Machine<M>, next: Machine<M>)
    requires TakesTurns(prog, run) && run[|run| - 1] == last && last.status == Running && next == Turn(prog, last)
    ensures TakesTurns(prog, run + [next])
  {
    var longer := run + [next];
    forall i, j | 0 <= i < j < |longer| && j == i + 1 ensures TakesTurn(prog, longer[i], longer[j]) {
      assert longer[i] == run[i];
      if j < |run| {
        assert longer[j] == run[j];
      }
    }
  }
}
