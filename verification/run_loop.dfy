/**
 The main run loop (vm.rs) with the channel operations it schedules around
 (ops/concurrency.rs).

 `prog` says what the next instruction of a thread is. Everything an instruction
 does may depend on the shared memory M, and so may the channel that a send or a
 receive names: its operand is resolved anew each time, and may be a word of a
 shared record. The table of an `alt` lies in the thread's own frame or module
 data, so its channels are the thread's own.
 */
module RunLoops {
  import opened Memory
  import opened Heaps
  import opened Threads

  type Thread = SuspendedThread

  /** What stands under a channel's id: its one slot, or nothing once the object is freed; ids are not used again. */
  datatype Slot = Empty | Full(data: Buffer) | Freed

  type Channels = map<HeapId, Slot>

  datatype AltEntry<!M> = AltEntry(channel: HeapId, isSend: bool, payload: M -> Buffer)

  /**
   What a computation leaves: memory, its own context, whether it halted, spawned
   threads, and which channels it freed by dropping the last reference.
   */
  datatype Effect<M> = Effect(mem: M, thread: Thread, halted: bool, spawned: seq<Thread>, dropped: set<HeapId>)

  /** An exception raised in place of an operation: what the handler starts from, if there is one. */
  type Raise<!M> = M -> Option<(M, Thread)>

  datatype Instr<!M> =
    | Compute(effect: M -> Effect<M>)
    | NewChannel(bind: (M, HeapId) -> Effect<M>)
    | Send(channel: M -> HeapId, payload: M -> Buffer, sent: Thread, raise: Raise<M>)
    | Recv(channel: M -> HeapId, store: (M, Buffer) -> (M, Thread), raise: Raise<M>)
    | Alt(entries: seq<AltEntry<M>>, chosen: (M, nat, Buffer) -> (M, Thread), raise: Raise<M>)
    | NbAlt(entries: seq<AltEntry<M>>, chosen: (M, nat, Buffer) -> (M, Thread), none: Thread, raise: Raise<M>)

  type Program<!M> = Thread -> Instr<M>

  datatype Status = Running | Finished | Deadlock | Faulted

  /** `sent` and `received` record what each channel has carried; `exits` the threads that ended. */
  datatype Machine<M> = Machine(
    mem: M,
    current: Thread,
    halted: bool,
    queue: seq<Thread>,
    channels: Channels,
    nextChannel: HeapId,
    quantum: nat,
    exits: seq<int>,
    sent: map<HeapId, seq<Buffer>>,
    received: map<HeapId, seq<Buffer>>,
    status: Status)

  const THREAD_QUANTUM: nat := 2048

  function Bare(t: Thread): Thread {
    t.(blockedOn := None)
  }

  predicate Ready(t: Thread) {
    t.blockedOn.None?
  }

  /** Threads waiting on the channel, or in an `alt` on any channel, become ready. */
  function Woken(queue: seq<Thread>, ch: HeapId): (r: seq<Thread>)
    ensures |r| == |queue|
    ensures forall i :: 0 <= i < |queue| ==>
      r[i] == if queue[i].blockedOn == Some(ch) || queue[i].blockedOn == Some(NIL) then Bare(queue[i]) else queue[i]
  {
    seq(|queue|, i requires 0 <= i < |queue| =>
      if queue[i].blockedOn == Some(ch) || queue[i].blockedOn == Some(NIL) then Bare(queue[i]) else queue[i])
  }

  function FirstReady(queue: seq<Thread>): (i: nat)
    ensures i <= |queue|
    ensures i < |queue| ==> Ready(queue[i])
    ensures forall k :: 0 <= k < i ==> !Ready(queue[k])
  {
    if queue == [] then 0
    else if Ready(queue[0]) then 0
    else
      var k := FirstReady(queue[1..]);
      assert forall j :: 0 < j < 1 + k ==> queue[j] == queue[1..][j - 1];
      1 + k
  }

  /** Load the first ready thread; the blocked ones before it go to the back. */
  function Resumed<M>(m: Machine<M>): Machine<M> {
    var k := FirstReady(m.queue);
    if k < |m.queue|
    then m.(current := m.queue[k], halted := false, queue := m.queue[k + 1..] + m.queue[..k])
    else m.(halted := true)
  }

  /** What is left in place of a thread that was moved out: its pc and pid only. */
  function MovedOut(t: Thread): Thread {
    SuspendedThread(FrameImage([], 0, 0), [], t.pc, t.pid, [], "", None, [], None)
  }

  function Suspended<M>(m: Machine<M>, blockedOn: Option<HeapId>): Machine<M> {
    m.(queue := m.queue + [m.current.(blockedOn := blockedOn)], current := MovedOut(m.current))
  }

  /** The table scan of `alt`: the first entry that can go, unless a channel is bad before it. */
  datatype Scan = Selected(idx: nat) | NoneReady | BadChannel

  /** The id names a channel that has not been freed. */
  predicate Usable(channels: Channels, ch: HeapId) {
    ch in channels && !channels[ch].Freed?
  }

  /** The channels once the objects in `dropped` are gone. */
  function Without(channels: Channels, dropped: set<HeapId>): (r: Channels)
    ensures r.Keys == channels.Keys
    ensures forall ch :: ch in channels ==> r[ch] == if ch in dropped then Freed else channels[ch]
    ensures dropped == {} ==> r == channels
  {
    map ch | ch in channels :: if ch in dropped then Freed else channels[ch]
  }

  predicate EntryReady<M>(e: AltEntry<M>, channels: Channels)
    requires e.channel in channels
  {
    if e.isSend then channels[e.channel].Empty? else channels[e.channel].Full?
  }

  function ScanAlt<M>(entries: seq<AltEntry<M>>, channels: Channels, from: nat): (r: Scan)
    requires from <= |entries|
    ensures r.Selected? ==>
      && from <= r.idx < |entries| && entries[r.idx].channel in channels
      && EntryReady(entries[r.idx], channels)
    decreases |entries| - from
  {
    if from == |entries| then NoneReady
    else if !Usable(channels, entries[from].channel) then BadChannel
    else if EntryReady(entries[from], channels) then Selected(from)
    else ScanAlt(entries, channels, from + 1)
  }

  /** The table is refused whole for a nil channel or a send and a receive on one channel. */
  predicate BadTable<M>(entries: seq<AltEntry<M>>) {
    || (exists i :: 0 <= i < |entries| && entries[i].channel == NIL)
    || exists i, j :: 0 <= i < |entries| && 0 <= j < |entries|
         && entries[i].isSend && !entries[j].isSend && entries[i].channel == entries[j].channel
  }

  datatype Execution<M> = Done(m: Machine<M>) | Blocked(channel: HeapId) | Fault

  function Append(log: map<HeapId, seq<Buffer>>, ch: HeapId, data: Buffer): map<HeapId, seq<Buffer>> {
    log[ch := (if ch in log then log[ch] else []) + [data]]
  }

  function Deposited<M>(m: Machine<M>, ch: HeapId, data: Buffer): Machine<M> {
    m.(channels := m.channels[ch := Full(data)], queue := Woken(m.queue, ch), sent := Append(m.sent, ch, data))
  }

  function Withdrawn<M>(m: Machine<M>, ch: HeapId, data: Buffer): Machine<M> {
    m.(channels := m.channels[ch := Empty], queue := Woken(m.queue, ch), received := Append(m.received, ch, data))
  }

  function Transferred<M>(m: Machine<M>, entries: seq<AltEntry<M>>, chosen: (M, nat, Buffer) -> (M, Thread),
                          i: nat): Machine<M>
    requires i < |entries| && entries[i].channel in m.channels && EntryReady(entries[i], m.channels)
  {
    var e := entries[i];
    var data := if e.isSend then e.payload(m.mem) else m.channels[e.channel].data;
    var next := if e.isSend then Deposited(m, e.channel, data) else Withdrawn(m, e.channel, data);
    var (mem, thread) := chosen(m.mem, i, data);
    next.(mem := mem, current := Bare(thread))
  }

  /** With no handler the exception ends the run. */
  function Caught<M>(m: Machine<M>, raise: Raise<M>): Execution<M> {
    match raise(m.mem)
    case None => Fault
    case Some((mem, thread)) => Done(m.(mem := mem, current := Bare(thread)))
  }

  /** A bad table raises an exception; a freed channel in a good one is fatal. */
  function Selecting<M>(m: Machine<M>, entries: seq<AltEntry<M>>, chosen: (M, nat, Buffer) -> (M, Thread),
                        raise: Raise<M>, otherwise: Execution<M>): Execution<M> {
    if BadTable(entries) then Caught(m, raise)
    else match ScanAlt(entries, m.channels, 0)
      case BadChannel => Fault
      case NoneReady => otherwise
      case Selected(i) => Done(Transferred(m, entries, chosen, i))
  }

  function Applied<M>(m: Machine<M>, e: Effect<M>): Machine<M> {
    m.(mem := e.mem, current := Bare(e.thread), halted := e.halted, channels := Without(m.channels, e.dropped),
       queue := m.queue + seq(|e.spawned|, i requires 0 <= i < |e.spawned| => Bare(e.spawned[i])))
  }

  function WithChannel<M>(m: Machine<M>): Machine<M> {
    m.(channels := m.channels[m.nextChannel := Empty], nextChannel := m.nextChannel + 1)
  }

  /** One instruction of the current thread. */
  function Execute<M>(prog: Program<M>, m: Machine<M>): Execution<M> {
    match prog(Bare(m.current))
    case Compute(effect) => Done(Applied(m, effect(m.mem)))
    case NewChannel(bind) => Done(Applied(WithChannel(m), bind(m.mem, m.nextChannel)))
    case Send(channel, payload, sent, raise) =>
      var ch := channel(m.mem);
      if !Usable(m.channels, ch) then Caught(m, raise)
      else if m.channels[ch].Full? then Blocked(ch)
      else Done(Deposited(m, ch, payload(m.mem)).(current := Bare(sent)))
    case Recv(channel, store, raise) =>
      var ch := channel(m.mem);
      if !Usable(m.channels, ch) then Caught(m, raise)
      else if m.channels[ch].Empty? then Blocked(ch)
      else
        var data := m.channels[ch].data;
        var (mem, thread) := store(m.mem, data);
        Done(Withdrawn(m, ch, data).(mem := mem, current := Bare(thread)))
    case Alt(entries, chosen, raise) => Selecting(m, entries, chosen, raise, Blocked(NIL))
    case NbAlt(entries, chosen, none, raise) =>
      Selecting(m, entries, chosen, raise, Done(m.(current := Bare(none))))
  }

  /** What no instruction touches; and it takes nobody out of the queue. */
  predicate Carries<M>(m: Machine<M>, e: Execution<M>) {
    e.Done? ==>
      && e.m.status == m.status && e.m.exits == m.exits && e.m.quantum == m.quantum
      && |e.m.queue| >= |m.queue|
  }

  lemma SelectingCarries<M>(m: Machine<M>, entries: seq<AltEntry<M>>, chosen: (M, nat, Buffer) -> (M, Thread),
                            raise: Raise<M>, otherwise: Execution<M>)
    requires Carries(m, otherwise)
    ensures Carries(m, Selecting(m, entries, chosen, raise, otherwise))
  {
  }

  lemma ExecuteCarries<M>(prog: Program<M>, m: Machine<M>)
    ensures Carries(m, Execute(prog, m))
  {
    match prog(Bare(m.current)) {
      case Alt(entries, chosen, raise) => SelectingCarries(m, entries, chosen, raise, Execution<M>.Blocked(NIL));
      case NbAlt(entries, chosen, none, raise) =>
        SelectingCarries(m, entries, chosen, raise, Done(m.(current := Bare(none))));
      case _ =>
    }
  }

  /** After an instruction: the quantum counter, and a switch when it has run out and others wait. */
  function Ticked<M>(m: Machine<M>): Machine<M> {
    if m.quantum + 1 >= THREAD_QUANTUM && m.queue != []
    then Resumed(Suspended(m.(quantum := 0), None))
    else m.(quantum := m.quantum + 1)
  }

  /** One turn of the loop in `VmState::run`. */
  function Turn<M>(prog: Program<M>, m: Machine<M>): Machine<M>
    requires m.status == Running
  {
    if m.halted then
      var left := m.(exits := m.exits + [m.current.pid]);
      if m.queue == [] then left.(status := Finished)
      else
        var next := Resumed(left);
        if next.halted then next.(status := Deadlock) else next
    else match Execute(prog, m)
      case Fault => m.(status := Faulted)
      case Blocked(ch) =>
        if FirstReady(m.queue) == |m.queue| then m.(status := Deadlock)
        else Resumed(Suspended(m, Some(ch)))
      case Done(next) => Ticked(next)
  }

  lemma RotateByOne(q: seq<Thread>, i: nat)
    requires i < |q|
    ensures (q[i..] + q[..i])[0] == q[i]
    ensures (q[i..] + q[..i])[1..] == q[i + 1..] + q[..i]
    ensures q[i + 1..] + q[..i] + [q[i]] == q[i + 1..] + q[..i + 1]
  {
  }

  lemma FirstReadyIs(q: seq<Thread>, i: nat)
    requires i <= |q| && (i < |q| ==> Ready(q[i])) && forall k :: 0 <= k < i ==> !Ready(q[k])
    ensures FirstReady(q) == i
  {
  }

  /** The scheduling state of the VM; each method is the one of the same name in vm.rs. */
  class Vm {
    var current: Thread
    var halted: bool
    var threadQueue: seq<Thread>

    constructor (first: Thread)
      ensures current == first && !halted && threadQueue == []
    {
      current, halted, threadQueue := first, false, [];
    }

    method UnblockChannel(ch: HeapId)
      modifies this`threadQueue
      ensures threadQueue == Woken(old(threadQueue), ch)
    {
      ghost var before := threadQueue;
      var i := 0;
      while i < |threadQueue|
        invariant i <= |threadQueue| == |before|
        invariant threadQueue[..i] == Woken(before, ch)[..i] && threadQueue[i..] == before[i..]
      {
        var blocked := threadQueue[i].blockedOn;
        assert threadQueue[i] == before[i];
        if blocked.Some? {
          if blocked.value == ch || blocked.value == NIL {
            threadQueue := threadQueue[i := threadQueue[i].(blockedOn := None)];
          }
        }
        i := i + 1;
      }
    }

    method LoadThread(t: Thread)
      modifies this`current, this`halted
      ensures current == t && !halted
    {
      current := t;
      halted := false;
    }

    /** False when every queued thread is blocked. */
    method ResumeNextReadyThread() returns (resumed: bool)
      modifies this
      ensures var k := FirstReady(old(threadQueue)); var q := old(threadQueue);
        && resumed == (k < |q|)
        && (resumed ==> current == q[k] && !halted && threadQueue == q[k + 1..] + q[..k])
        && (!resumed ==> current == old(current) && halted && threadQueue == q)
    {
      ghost var q := threadQueue;
      var len := |threadQueue|;
      var i := 0;
      while i < len
        invariant i <= len == |q|
        invariant threadQueue == q[i..] + q[..i]
        invariant forall k :: 0 <= k < i ==> !Ready(q[k])
        invariant current == old(current) && halted == old(halted)
      {
        var t := threadQueue[0];
        threadQueue := threadQueue[1..];
        RotateByOne(q, i);
        assert t == q[i] && threadQueue == q[i + 1..] + q[..i];
        if t.blockedOn.None? {
          FirstReadyIs(q, i);
          LoadThread(t);
          return true;
        }
        threadQueue := threadQueue + [t];
        i := i + 1;
      }
      FirstReadyIs(q, i);
      assert q[i..] + q[..i] == q;
      halted := true;
      return false;
    }

    method SuspendAsBlocked(ch: HeapId)
      modifies this`current, this`threadQueue
      ensures threadQueue == old(threadQueue) + [old(current).(blockedOn := Some(ch))]
      ensures current == MovedOut(old(current))
    {
      threadQueue := threadQueue + [current.(blockedOn := Some(ch))];
      current := MovedOut(current);
    }

    /** The thread moved to the back is ready, so some thread is always resumed. */
    method SuspendAndRotate()
      modifies this
      ensures var q := old(threadQueue) + [old(current).(blockedOn := None)]; var k := FirstReady(q);
        k < |q| && current == q[k] && !halted && threadQueue == q[k + 1..] + q[..k]
    {
      threadQueue := threadQueue + [current.(blockedOn := None)];
      assert Ready(threadQueue[|threadQueue| - 1]);
      current := MovedOut(current);
      var resumed := ResumeNextReadyThread();
    }
  }
}
