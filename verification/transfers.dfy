/**
 What one instruction of the run loop leaves, told by the slots and the logs of
 the channels: who is handed which value, what is kept, and when it blocks.
 */
module Transfers {
  import opened Memory
  import opened Heaps
  import opened Threads
  import opened RunLoops
  import opened RunLoopLaws

  /** The oldest value sent on the channel that has not been received. */
  function Next<M>(m: Machine<M>, ch: HeapId): Buffer {
    if |Log(m.received, ch)| < |Log(m.sent, ch)| then Log(m.sent, ch)[|Log(m.received, ch)|] else []
  }

  /** A thread that waits on this channel, or in an `alt`. */
  predicate WaitsFor(t: Thread, ch: HeapId) {
    t.blockedOn == Some(ch) || t.blockedOn == Some(NIL)
  }

  /** Memory and the current thread apart, only one channel changed, and its waiters are ready where they were. */
  ghost predicate OnlyChannel<M>(m: Machine<M>, after: Machine<M>, ch: HeapId) {
    && after.halted == m.halted && after.status == m.status && after.exits == m.exits && after.quantum == m.quantum
    && after.nextChannel == m.nextChannel && after.channels.Keys == m.channels.Keys
    && (forall c :: c in m.channels && c != ch ==> after.channels[c] == m.channels[c])
    && (forall c :: c != ch ==> Log(after.sent, c) == Log(m.sent, c) && Log(after.received, c) == Log(m.received, c))
    && |after.queue| == |m.queue|
    && forall i :: 0 <= i < |m.queue| ==>
      after.queue[i] == if WaitsFor(m.queue[i], ch) then m.queue[i].(blockedOn := None) else m.queue[i]
  }

  /** A value went into the channel's slot. */
  ghost predicate Deposits<M>(m: Machine<M>, after: Machine<M>, ch: HeapId, data: Buffer) {
    && ch in m.channels && m.channels[ch] == Empty && OnlyChannel(m, after, ch)
    && after.channels[ch] == Full(data)
    && Log(after.sent, ch) == Log(m.sent, ch) + [data] && Log(after.received, ch) == Log(m.received, ch)
  }

  /** The channel gave up the oldest value not yet received, which was the only one. */
  ghost predicate Withdraws<M>(m: Machine<M>, after: Machine<M>, ch: HeapId, data: Buffer) {
    && ch in m.channels && m.channels[ch].Full? && OnlyChannel(m, after, ch)
    && |Log(m.received, ch)| < |Log(m.sent, ch)| && data == Next(m, ch)
    && after.channels[ch] == Empty
    && Log(after.received, ch) == Log(m.received, ch) + [data] && Log(after.sent, ch) == Log(m.sent, ch)
  }

  /** The thread goes on in its handler, or there is none and the run is over. */
  ghost predicate Raises<M>(m: Machine<M>, e: Execution<M>, raise: Raise<M>) {
    match raise(m.mem)
    case None => e.Fault?
    case Some((mem, thread)) => e.Done? && e.m == m.(mem := mem, current := thread.(blockedOn := None))
  }

  /** No channel, or one that has been freed. */
  predicate Dead(channels: Channels, ch: HeapId) {
    ch !in channels || channels[ch].Freed?
  }

  ghost predicate Sends<M>(m: Machine<M>, e: Execution<M>, ch: HeapId, data: Buffer, sent: Thread, raise: Raise<M>) {
    if Dead(m.channels, ch) then Raises(m, e, raise)
    else if m.channels[ch].Full? then e.Blocked? && e.channel == ch
    else e.Done? && Deposits(m, e.m, ch, data) && e.m.mem == m.mem && e.m.current == sent.(blockedOn := None)
  }

  ghost predicate Receives<M>(m: Machine<M>, e: Execution<M>, ch: HeapId, store: (M, Buffer) -> (M, Thread),
                              raise: Raise<M>)
  {
    if Dead(m.channels, ch) then Raises(m, e, raise)
    else if m.channels[ch].Empty? then e.Blocked? && e.channel == ch
    else
      && e.Done? && Withdraws(m, e.m, ch, Next(m, ch))
      && var (mem, thread) := store(m.mem, Next(m, ch));
         e.m.mem == mem && e.m.current == thread.(blockedOn := None)
  }

  /** What holds of an entry that can go now. */
  predicate Goes<M>(e: AltEntry<M>, channels: Channels) {
    e.channel in channels && channels[e.channel] != Freed && (e.isSend <==> channels[e.channel] == Empty)
  }

  /** Entry `k` is the first that can go, or else the first whose channel is dead; none can go before it. */
  predicate Decides<M>(entries: seq<AltEntry<M>>, channels: Channels, k: nat) {
    && k < |entries|
    && (forall j :: 0 <= j < k ==> !Dead(channels, entries[j].channel) && !Goes(entries[j], channels))
    && (Dead(channels, entries[k].channel) || Goes(entries[k], channels))
  }

  /** A nil channel anywhere, or a send and a receive on one channel. */
  ghost predicate Refused<M>(entries: seq<AltEntry<M>>) {
    exists i, j :: 0 <= i < |entries| && 0 <= j < |entries| && Clash(entries[i], entries[j])
  }

  predicate Clash<M>(e: AltEntry<M>, f: AltEntry<M>) {
    e.channel == NIL || (e.isSend && !f.isSend && e.channel == f.channel)
  }

  /** The transfer of entry `k`: its payload is sent, or it is handed the oldest value not yet received. */
  ghost predicate Selects<M>(m: Machine<M>, e: Execution<M>, entry: AltEntry<M>,
                             chosen: (M, nat, Buffer) -> (M, Thread), k: nat)
  {
    var data := if entry.isSend then entry.payload(m.mem) else Next(m, entry.channel);
    && e.Done?
    && (if entry.isSend then Deposits(m, e.m, entry.channel, data) else Withdraws(m, e.m, entry.channel, data))
    && var (mem, thread) := chosen(m.mem, k, data);
       e.m.mem == mem && e.m.current == thread.(blockedOn := None)
  }

  /** An `alt`, but for what it does when no entry decides. */
  ghost predicate Alternates<M(!new)>(m: Machine<M>, e: Execution<M>, entries: seq<AltEntry<M>>,
                                      chosen: (M, nat, Buffer) -> (M, Thread), raise: Raise<M>)
  {
    if Refused(entries) then Raises(m, e, raise)
    else forall k: nat :: Decides(entries, m.channels, k) ==>
      if Dead(m.channels, entries[k].channel) then e.Fault? else Selects(m, e, entries[k], chosen, k)
  }

  ghost predicate Undecided<M>(entries: seq<AltEntry<M>>, channels: Channels) {
    forall k: nat :: !Decides(entries, channels, k)
  }

  ghost predicate Computes<M>(m: Machine<M>, e: Execution<M>, effect: Effect<M>) {
    && e.Done?
    && e.m.mem == effect.mem && e.m.current == effect.thread.(blockedOn := None) && e.m.halted == effect.halted
    && e.m.sent == m.sent && e.m.received == m.received
    && e.m.status == m.status && e.m.exits == m.exits && e.m.quantum == m.quantum
    && |e.m.queue| == |m.queue| + |effect.spawned| && e.m.queue[..|m.queue|] == m.queue
    && (forall i :: 0 <= i < |effect.spawned| ==>
          e.m.queue[|m.queue| + i] == effect.spawned[i].(blockedOn := None))
    && (forall ch :: ch in m.channels ==>
          && ch in e.m.channels
          && e.m.channels[ch] == if ch in effect.dropped then Freed else m.channels[ch])
  }

  /** What executing the current thread's instruction comes to. */
  ghost predicate Executes<M(!new)>(prog: Program<M>, m: Machine<M>, e: Execution<M>) {
    match prog(m.current.(blockedOn := None))
    case Compute(effect) =>
      && Computes(m, e, effect(m.mem))
      && e.m.channels.Keys == m.channels.Keys && e.m.nextChannel == m.nextChannel
    case NewChannel(bind) =>
      && Computes(m, e, bind(m.mem, m.nextChannel))
      && e.m.channels.Keys == m.channels.Keys + {m.nextChannel} && e.m.nextChannel == m.nextChannel + 1
      && (m.nextChannel !in bind(m.mem, m.nextChannel).dropped ==> e.m.channels[m.nextChannel] == Empty)
    case Send(channel, payload, sent, raise) => Sends(m, e, channel(m.mem), payload(m.mem), sent, raise)
    case Recv(channel, store, raise) => Receives(m, e, channel(m.mem), store, raise)
    case Alt(entries, chosen, raise) =>
      && Alternates(m, e, entries, chosen, raise)
      && (!Refused(entries) && Undecided(entries, m.channels) ==> e.Blocked? && e.channel == NIL)
    case NbAlt(entries, chosen, none, raise) =>
      && Alternates(m, e, entries, chosen, raise)
      && (!Refused(entries) && Undecided(entries, m.channels) ==>
            e.Done? && e.m == m.(current := none.(blockedOn := None)))
  }

  lemma NextIsHeld<M>(m: Machine<M>, ch: HeapId)
    requires InOrder(m) && ch in m.channels && m.channels[ch].Full?
    ensures |Log(m.received, ch)| < |Log(m.sent, ch)| && Next(m, ch) == m.channels[ch].data
  {
    assert Delivers(m.channels, m.sent, m.received, ch);
  }

  lemma DepositExactly<M>(m: Machine<M>, ch: HeapId, data: Buffer, after: Machine<M>)
    requires ch in m.channels && m.channels[ch] == Empty
    requires var d := Deposited(m, ch, data); after == d.(mem := after.mem, current := after.current)
    ensures Deposits(m, after, ch, data)
  {
  }

  lemma WithdrawExactly<M>(m: Machine<M>, ch: HeapId, after: Machine<M>)
    requires InOrder(m) && ch in m.channels && m.channels[ch].Full?
    requires var w := Withdrawn(m, ch, m.channels[ch].data); after == w.(mem := after.mem, current := after.current)
    ensures Withdraws(m, after, ch, Next(m, ch)) && Next(m, ch) == m.channels[ch].data
  {
    NextIsHeld(m, ch);
  }

  lemma {:induction false} ScanDecides<M>(entries: seq<AltEntry<M>>, channels: Channels, from: nat)
    requires from <= |entries|
    requires forall j :: 0 <= j < from ==> !Dead(channels, entries[j].channel) && !Goes(entries[j], channels)
    ensures match ScanAlt(entries, channels, from)
      case Selected(k) => Decides(entries, channels, k) && !Dead(channels, entries[k].channel)
      case BadChannel => exists k: nat :: Decides(entries, channels, k) && Dead(channels, entries[k].channel)
      case NoneReady => Undecided(entries, channels)
    decreases |entries| - from
  {
    if from < |entries| {
      if Dead(channels, entries[from].channel) {
        assert Decides(entries, channels, from);
      } else if !EntryReady(entries[from], channels) {
        ScanDecides(entries, channels, from + 1);
      }
    }
  }

  lemma DecidedOnce<M>(entries: seq<AltEntry<M>>, channels: Channels, j: nat, k: nat)
    requires Decides(entries, channels, j) && Decides(entries, channels, k)
    ensures j == k
  {
  }

  lemma RefusedExactly<M>(entries: seq<AltEntry<M>>)
    ensures BadTable(entries) <==> Refused(entries)
  {
    if i :| 0 <= i < |entries| && entries[i].channel == NIL {
      assert Clash(entries[i], entries[i]);
    }
    forall i, j | 0 <= i < |entries| && 0 <= j < |entries|
      && entries[i].isSend && !entries[j].isSend && entries[i].channel == entries[j].channel
      ensures Clash(entries[i], entries[j])
    {
    }
  }

  lemma TransferExactly<M>(m: Machine<M>, entries: seq<AltEntry<M>>, chosen: (M, nat, Buffer) -> (M, Thread), k: nat)
    requires InOrder(m) && k < |entries| && entries[k].channel in m.channels
    requires EntryReady(entries[k], m.channels)
    ensures Selects(m, Done(Transferred(m, entries, chosen, k)), entries[k], chosen, k)
  {
    var after := Transferred(m, entries, chosen, k);
    var entry := entries[k];
    if entry.isSend {
      DepositExactly(m, entry.channel, entry.payload(m.mem), after);
    } else {
      WithdrawExactly(m, entry.channel, after);
    }
  }

  lemma SelectingExactly<M(!new)>(m: Machine<M>, entries: seq<AltEntry<M>>, chosen: (M, nat, Buffer) -> (M, Thread),
                                  raise: Raise<M>, otherwise: Execution<M>)
    requires InOrder(m)
    ensures Alternates(m, Selecting(m, entries, chosen, raise, otherwise), entries, chosen, raise)
    ensures !Refused(entries) && Undecided(entries, m.channels) ==>
      Selecting(m, entries, chosen, raise, otherwise) == otherwise
  {
    RefusedExactly(entries);
    ScanDecides(entries, m.channels, 0);
    var e := Selecting(m, entries, chosen, raise, otherwise);
    if !Refused(entries) {
      forall k: nat | Decides(entries, m.channels, k)
        ensures if Dead(m.channels, entries[k].channel) then e.Fault? else Selects(m, e, entries[k], chosen, k)
      {
        match ScanAlt(entries, m.channels, 0)
        case Selected(i) =>
          DecidedOnce(entries, m.channels, i, k);
          TransferExactly(m, entries, chosen, k);
        case BadChannel =>
          var i: nat :| Decides(entries, m.channels, i) && Dead(m.channels, entries[i].channel);
          DecidedOnce(entries, m.channels, i, k);
        case NoneReady =>
      }
    }
  }

  lemma AppliedExactly<M>(m: Machine<M>, e: Effect<M>)
    ensures Computes(m, Done(Applied(m, e)), e)
  {
  }

  lemma SendExactly<M>(prog: Program<M>, m: Machine<M>)
    requires prog(Bare(m.current)).Send?
    ensures var i := prog(Bare(m.current));
      Sends(m, Execute(prog, m), i.channel(m.mem), i.payload(m.mem), i.sent, i.raise)
  {
    var i := prog(Bare(m.current));
    var e := Execute(prog, m);
    if e.Done? && Usable(m.channels, i.channel(m.mem)) {
      DepositExactly(m, i.channel(m.mem), i.payload(m.mem), e.m);
    }
  }

  lemma ReceiveExactly<M>(prog: Program<M>, m: Machine<M>)
    requires InOrder(m) && prog(Bare(m.current)).Recv?
    ensures var i := prog(Bare(m.current)); Receives(m, Execute(prog, m), i.channel(m.mem), i.store, i.raise)
  {
    var i := prog(Bare(m.current));
    var e := Execute(prog, m);
    if e.Done? && Usable(m.channels, i.channel(m.mem)) {
      WithdrawExactly(m, i.channel(m.mem), e.m);
    }
  }

  /** Each instruction, wherever the channels are in order, does that and no more. */
  lemma ExecuteExactly<M(!new)>(prog: Program<M>, m: Machine<M>)
    requires InOrder(m) && Fresh(m)
    ensures Executes(prog, m, Execute(prog, m))
  {
    match prog(Bare(m.current)) {
      case Compute(effect) => AppliedExactly(m, effect(m.mem));
      case NewChannel(bind) => AppliedExactly(WithChannel(m), bind(m.mem, m.nextChannel));
      case Send(_, _, _, _) => SendExactly(prog, m);
      case Recv(_, _, _) => ReceiveExactly(prog, m);
      case Alt(entries, chosen, raise) =>
        SelectingExactly(m, entries, chosen, raise, Execution<M>.Blocked(NIL));
      case NbAlt(entries, chosen, none, raise) =>
        SelectingExactly(m, entries, chosen, raise, Done(m.(current := Bare(none))));
    }
  }

  /**
   So in every reachable state: whoever receives is handed the oldest value sent
   on the channel that nobody has received, and stores that one.
   */
  lemma RunsExecuteExactly<M(!new)>(prog: Program<M>, run: seq<Machine<M>>, i: nat)
    requires IsRun(prog, run) && i < |run|
    ensures Executes(prog, run[i], Execute(prog, run[i]))
  {
    RunsKeepInv(prog, run, i);
    ExecuteExactly(prog, run[i]);
  }
}
