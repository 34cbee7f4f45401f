/** The queueing channel (channel.rs): sends and receives wait for each other in order. */
module QueueChannels {
  import opened Memory

  datatype Request = Request(threadId: nat, data: Buffer)

  datatype Queues = Queues(senders: seq<Request>, receivers: seq<Request>)

  datatype Op = Send(threadId: nat, data: Buffer) | Recv(threadId: nat)

  /** The queues after one operation, and what it delivered to whom. */
  function Step(q: Queues, op: Op): (Queues, Option<Request>) {
    match op
    case Send(id, data) =>
      if q.receivers != [] then (q.(receivers := q.receivers[1..]), Some(Request(q.receivers[0].threadId, data)))
      else (q.(senders := q.senders + [Request(id, data)]), None)
    case Recv(id) =>
      if q.senders != [] then (q.(senders := q.senders[1..]), Some(Request(id, q.senders[0].data)))
      else (q.(receivers := q.receivers + [Request(id, [])]), None)
  }

  class Channel {
    var senders: seq<Request>
    var receivers: seq<Request>
    const elemSize: nat

    constructor (elemSize: nat)
      ensures State() == Queues([], []) && this.elemSize == elemSize
    {
      this.elemSize := elemSize;
      senders, receivers := [], [];
    }

    function State(): Queues
      reads this
    {
      Queues(senders, receivers)
    }

    /** The receiver that was waiting, with the data for it, or None when the send is queued. */
    method TrySend(data: Buffer, threadId: nat) returns (r: Option<Request>)
      modifies this
      ensures (State(), r) == Step(old(State()), Send(threadId, data))
    {
      if receivers != [] {
        var receiver := receivers[0];
        receivers := receivers[1..];
        return Some(Request(receiver.threadId, data));
      }
      senders := senders + [Request(threadId, data)];
      return None;
    }

    method TryRecv(threadId: nat) returns (r: Option<Buffer>)
      modifies this
      ensures State() == Step(old(State()), Recv(threadId)).0
      ensures r == match Step(old(State()), Recv(threadId)).1 case Some(request) => Some(request.data) case None => None
    {
      if senders != [] {
        var sender := senders[0];
        senders := senders[1..];
        return Some(sender.data);
      }
      receivers := receivers + [Request(threadId, [])];
      return None;
    }
  }

  // --- Runs from a new channel ---

  function After(ops: seq<Op>): Queues {
    if ops == [] then Queues([], []) else Step(After(ops[..|ops| - 1]), ops[|ops| - 1]).0
  }

  function Deliveries(ops: seq<Op>): seq<Request> {
    if ops == [] then []
    else
      var delivered := Step(After(ops[..|ops| - 1]), ops[|ops| - 1]).1;
      Deliveries(ops[..|ops| - 1]) + if delivered.Some? then [delivered.value] else []
  }

  /** All sends of a run, in order. */
  function Sends(ops: seq<Op>): seq<Request> {
    if ops == [] then []
    else
      var op := ops[|ops| - 1];
      Sends(ops[..|ops| - 1]) + if op.Send? then [Request(op.threadId, op.data)] else []
  }

  function Recvs(ops: seq<Op>): seq<Request> {
    if ops == [] then []
    else
      var op := ops[|ops| - 1];
      Recvs(ops[..|ops| - 1]) + if op.Recv? then [Request(op.threadId, [])] else []
  }

  function Least(a: nat, b: nat): nat {
    if a < b then a else b
  }

  /**
   The k-th receive gets the data of the k-th send, whichever came first; what
   is queued is exactly the unmatched rest, so never both sends and receives.
   */
  predicate Paired(q: Queues, sends: seq<Request>, recvs: seq<Request>, delivered: seq<Request>) {
    var k := Least(|sends|, |recvs|);
    && q.senders == sends[k..] && q.receivers == recvs[k..]
    && (q.senders == [] || q.receivers == [])
    && |delivered| == k
    && forall i :: 0 <= i < k ==> delivered[i] == Request(recvs[i].threadId, sends[i].data)
  }

  lemma SendKeepsPairs(q: Queues, sends: seq<Request>, recvs: seq<Request>, delivered: seq<Request>, id: nat,
                       data: Buffer)
    requires Paired(q, sends, recvs, delivered)
    ensures var (next, d) := Step(q, Send(id, data));
      Paired(next, sends + [Request(id, data)], recvs, delivered + if d.Some? then [d.value] else [])
  {
    var k := Least(|sends|, |recvs|);
    var longer := sends + [Request(id, data)];
    if q.receivers != [] {
      assert recvs[k..][1..] == recvs[k + 1..];
      assert longer[k + 1..] == [];
    } else {
      assert longer[k..] == sends[k..] + [Request(id, data)];
    }
  }

  lemma RecvKeepsPairs(q: Queues, sends: seq<Request>, recvs: seq<Request>, delivered: seq<Request>, id: nat)
    requires Paired(q, sends, recvs, delivered)
    ensures var (next, d) := Step(q, Recv(id));
      Paired(next, sends, recvs + [Request(id, [])], delivered + if d.Some? then [d.value] else [])
  {
    var k := Least(|sends|, |recvs|);
    var longer := recvs + [Request(id, [])];
    if q.senders != [] {
      assert sends[k..][1..] == sends[k + 1..];
      assert longer[k + 1..] == [];
    } else {
      assert longer[k..] == recvs[k..] + [Request(id, [])];
    }
  }

  lemma {:induction false} MatchedInOrder(ops: seq<Op>)
    ensures Paired(After(ops), Sends(ops), Recvs(ops), Deliveries(ops))
  {
    if ops != [] {
      var init := ops[..|ops| - 1];
      MatchedInOrder(init);
      match ops[|ops| - 1]
      case Send(id, data) => SendKeepsPairs(After(init), Sends(init), Recvs(init), Deliveries(init), id, data);
      case Recv(id) => RecvKeepsPairs(After(init), Sends(init), Recvs(init), Deliveries(init), id);
    }
  }
}
