/**
 A run that ends in a false deadlock. The first thread makes two channels, puts
 the first in a shared word, spawns a second thread, and receives on the channel
 that the word names. The second sends on the other channel, puts that one in
 the word, and exits. The value is there to be received, but the first thread was
 queued on the channel the word named before, and nothing wakes it.
 */
module Redirection {
  import opened Memory
  import opened Heaps
  import opened Threads
  import opened RunLoops
  import opened RunLoopLaws
  import opened Waiters

  const FIRST: HeapId := HEAP_ID_BASE
  const SECOND: HeapId := HEAP_ID_BASE + 1

  /** A thread that is only somewhere in the code. */
  function At(pid: int, pc: nat): Thread {
    SuspendedThread(FrameImage([], 0, 0), [], pc, pid, [], "", None, [], None)
  }

  function NoHandler(): Raise<HeapId> {
    (_: HeapId) => None
  }

  /** The shared memory is the one word. */
  function Instruction(t: Thread): Instr<HeapId> {
    match t.pc
    case 0 => NewChannel((word: HeapId, _: HeapId) => Effect(word, At(1, 1), false, [], {}))
    case 1 => NewChannel((word: HeapId, _: HeapId) => Effect(word, At(1, 2), false, [], {}))
    case 2 => Compute((_: HeapId) => Effect(FIRST, At(1, 3), false, [At(2, 5)], {}))
    case 3 => Recv((word: HeapId) => word, (word: HeapId, _: Buffer) => (word, At(1, 4)), NoHandler())
    case 5 => Send((_: HeapId) => SECOND, (_: HeapId) => TOKEN, At(2, 6), NoHandler())
    case 6 => Compute((_: HeapId) => Effect(SECOND, At(2, 7), false, [], {}))
    case _ => Compute((word: HeapId) => Effect(word, t, true, [], {}))
  }

  function Redirecting(): Program<HeapId> {
    (t: Thread) => Instruction(t)
  }

  function Start(): Machine<HeapId> {
    Machine(NIL, At(1, 0), false, [], map[], HEAP_ID_BASE, 0, [], map[], map[], Running)
  }

  const TOKEN: Buffer := [7]

  const BOTH_EMPTY: Channels := map[FIRST := Empty, SECOND := Empty]
  const SECOND_FULL: Channels := map[FIRST := Empty, SECOND := Full(TOKEN)]

  function Waiting(): Thread {
    At(1, 3).(blockedOn := Some(FIRST))
  }

  /** The states after the third turn, after the first thread blocked, and from then on. */
  function Spawned(): Machine<HeapId> {
    Machine(FIRST, At(1, 3), false, [At(2, 5)], BOTH_EMPTY, SECOND + 1, 3, [], map[], map[], Running)
  }

  function Blocking(): Machine<HeapId> {
    Spawned().(current := At(2, 5), queue := [Waiting()])
  }

  function Sending(): Machine<HeapId> {
    Blocking().(current := At(2, 6), channels := SECOND_FULL, sent := map[SECOND := [TOKEN]], quantum := 4)
  }

  function Moving(): Machine<HeapId> {
    Sending().(mem := SECOND, current := At(2, 7), quantum := 5)
  }

  lemma FirstTurns()
    ensures var prog := Redirecting(); var one := Turn(prog, Start());
      one.status == Running && Turn(prog, one).status == Running && Turn(prog, Turn(prog, one)) == Spawned()
  {
    var prog := Redirecting();
    var one := Turn(prog, Start());
    assert one == Start().(current := At(1, 1), channels := map[FIRST := Empty], nextChannel := SECOND, quantum := 1);
    var two := Turn(prog, one);
    assert map[FIRST := Empty][SECOND := Empty] == BOTH_EMPTY;
    assert two == one.(current := At(1, 2), channels := BOTH_EMPTY, nextChannel := SECOND + 1, quantum := 2);
    assert Execute(prog, two).m.queue == [At(2, 5)];
  }

  lemma BlockingTurn()
    ensures Turn(Redirecting(), Spawned()) == Blocking()
  {
    var m := Spawned();
    assert Bare(m.current) == At(1, 3);
    assert Execute(Redirecting(), m) == Execution<HeapId>.Blocked(FIRST);
    var q := Suspended(m, Some(FIRST)).queue;
    assert q == [At(2, 5), Waiting()] && FirstReady(q) == 0;
    assert q[1..] + q[..0] == [Waiting()];
  }

  lemma LogOfOne()
    ensures var none: map<HeapId, seq<Buffer>> := map[]; Append(none, SECOND, TOKEN) == map[SECOND := [TOKEN]]
  {
    var none: map<HeapId, seq<Buffer>> := map[];
    var before: seq<Buffer> := [];
    assert before + [TOKEN] == [TOKEN];
    assert Append(none, SECOND, TOKEN) == none[SECOND := before + [TOKEN]] == map[SECOND := [TOKEN]];
  }

  lemma SendingTurn()
    ensures Turn(Redirecting(), Blocking()) == Sending()
  {
    var m := Blocking();
    assert Bare(m.current) == At(2, 5);
    assert BOTH_EMPTY[SECOND := Full(TOKEN)] == SECOND_FULL;
    LogOfOne();
    assert Woken(m.queue, SECOND) == [Waiting()];
  }

  lemma LastTurns()
    ensures var prog := Redirecting(); var exited := Turn(prog, Moving());
      && Turn(prog, Sending()) == Moving()
      && exited.status == Running
      && Turn(prog, exited) == Moving().(halted := true, quantum := 6, exits := [2], status := Deadlock)
  {
    var prog := Redirecting();
    assert Bare(Sending().current) == At(2, 6) && Bare(Moving().current) == At(2, 7);
    assert Sending().queue + [] == [Waiting()] == Moving().queue;
    var exited := Turn(prog, Moving());
    assert exited == Moving().(halted := true, quantum := 6);
    assert FirstReady(exited.queue) == 1;
  }

  lemma FirstStates() returns (run: seq<Machine<HeapId>>)
    ensures TakesTurns(Redirecting(), run) && |run| == 4 && run[3] == Spawned()
  {
    var prog := Redirecting();
    FirstTurns();
    run := [Start()];
    var one := Turn(prog, Start());
    RunExtends(prog, run, Start(), one);
    run := run + [one];
    var two := Turn(prog, one);
    RunExtends(prog, run, one, two);
    run := run + [two];
    RunExtends(prog, run, two, Spawned());
    run := run + [Spawned()];
  }

  lemma MiddleStates() returns (run: seq<Machine<HeapId>>)
    ensures TakesTurns(Redirecting(), run) && |run| == 7 && run[5] == Sending() && run[6] == Moving()
  {
    var prog := Redirecting();
    run := FirstStates();
    BlockingTurn();
    RunExtends(prog, run, Spawned(), Blocking());
    run := run + [Blocking()];
    SendingTurn();
    RunExtends(prog, run, Blocking(), Sending());
    run := run + [Sending()];
    LastTurns();
    RunExtends(prog, run, Sending(), Moving());
    run := run + [Moving()];
  }

  /** In the last state the first thread waits, and could receive. */
  lemma CouldReceive(m: Machine<HeapId>)
    requires m.mem == SECOND && m.channels == SECOND_FULL && m.queue == [Waiting()]
    ensures Execute(Redirecting(), m.(current := Waiting())).Done? && !Stuck(Redirecting(), m)
  {
    assert Bare(Waiting()) == At(1, 3);
    assert Waiting() in m.queue && !WouldBlock(Redirecting(), m, Waiting());
  }

  lemma WordMoved()
    ensures !Undisturbed(Redirecting(), Sending(), Moving())
  {
    assert Bare(Waiting()) == At(1, 3);
    assert Waiting() in Sending().queue && Waiting() in Moving().queue;
  }

  /** The deadlock is reported in the ninth state, though the thread that waits could receive. */
  lemma FalseDeadlock() returns (run: seq<Machine<HeapId>>)
    ensures TakesTurns(Redirecting(), run) && IsRun(Redirecting(), run) && |run| == 9 && run[8].status == Deadlock
    ensures run[8].queue == [Waiting()] && Execute(Redirecting(), run[8].(current := Waiting())).Done?
    ensures !Stuck(Redirecting(), run[8])
    ensures !Undisturbed(Redirecting(), run[5], run[6])
  {
    var prog := Redirecting();
    run := MiddleStates();
    WordMoved();
    LastTurns();
    var exited := Turn(prog, Moving());
    RunExtends(prog, run, Moving(), exited);
    run := run + [exited];
    var last := Turn(prog, exited);
    RunExtends(prog, run, exited, last);
    run := run + [last];
    TurnsAreRun(prog, run);
    CouldReceive(last);
  }
}
