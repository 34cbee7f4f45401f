/** Exception handling over the frame chain (vm.rs: the unwinder and its lookups). */
module Exceptions {
  import opened Memory
  import opened Threads
  import opened FrameStacks
  import opened FrameChains

  datatype ExceptionCase = ExceptionCase(name: Option<string>, pc: int)
  datatype Handler = Handler(exceptionOffset: int, beginPc: int, endPc: int, cases: seq<ExceptionCase>)

  /** Where a handler lands, and where in its frame the exception value goes. */
  datatype Landing = Landing(pc: nat, exceptionOffset: nat)

  predicate Covers(h: Handler, pc: int) {
    h.beginPc <= pc < h.endPc
  }

  predicate Matches(c: ExceptionCase, msg: string) {
    match c.name
    case Some(name) => name <= msg
    case None => true
  }

  /** A case takes the exception: it matches and is not the "no pc" sentinel. */
  predicate TakesIt(c: ExceptionCase, msg: string) {
    Matches(c, msg) && c.pc >= 0
  }

  function FindCase(cases: seq<ExceptionCase>, msg: string): (i: nat)
    ensures i <= |cases|
    ensures i < |cases| ==> TakesIt(cases[i], msg)
    ensures forall k :: 0 <= k < i ==> !TakesIt(cases[k], msg)
  {
    if cases == [] then 0
    else if TakesIt(cases[0], msg) then 0
    else
      var k := FindCase(cases[1..], msg);
      assert forall j :: 0 < j < 1 + k ==> cases[j] == cases[1..][j - 1];
      1 + k
  }

  /** Some case of the handler takes the exception at this pc. */
  predicate Handles(h: Handler, pc: int, msg: string) {
    Covers(h, pc) && FindCase(h.cases, msg) < |h.cases|
  }

  function LandingOf(h: Handler, msg: string): Landing
    requires FindCase(h.cases, msg) < |h.cases|
  {
    Landing(h.cases[FindCase(h.cases, msg)].pc, if h.exceptionOffset > 0 then h.exceptionOffset else 0)
  }

  function FirstHandler(handlers: seq<Handler>, pc: int, msg: string): (i: nat)
    ensures i <= |handlers|
    ensures i < |handlers| ==> Handles(handlers[i], pc, msg)
    ensures forall k :: 0 <= k < i ==> !Handles(handlers[k], pc, msg)
  {
    if handlers == [] then 0
    else if Handles(handlers[0], pc, msg) then 0
    else
      var k := FirstHandler(handlers[1..], pc, msg);
      assert forall j :: 0 < j < 1 + k ==> handlers[j] == handlers[1..][j - 1];
      1 + k
  }

  /** The first case, of the first handler covering the pc, that takes the exception. */
  function FindHandler(handlers: seq<Handler>, pc: int, msg: string): (r: Option<Landing>)
    ensures r.None? <==> forall k :: 0 <= k < |handlers| ==> !Handles(handlers[k], pc, msg)
  {
    var i := FirstHandler(handlers, pc, msg);
    if i < |handlers| then Some(LandingOf(handlers[i], msg)) else None
  }

  /** The case has a pc to land at, and its name, if it has one, is how the message starts. */
  predicate Takes(c: ExceptionCase, msg: string) {
    && c.pc >= 0
    && (c.name.None? || (|c.name.value| <= |msg| && msg[..|c.name.value|] == c.name.value))
  }

  /**
   Case `c` of handler `k` is the first, in the first handler whose range holds
   the pc and has one, to take the exception.
   */
  predicate IsLanding(handlers: seq<Handler>, pc: int, msg: string, k: nat, c: nat, l: Landing) {
    && k < |handlers| && c < |handlers[k].cases|
    && handlers[k].beginPc <= pc < handlers[k].endPc && Takes(handlers[k].cases[c], msg)
    && (forall i :: 0 <= i < c ==> !Takes(handlers[k].cases[i], msg))
    && (forall i, j :: 0 <= i < k && handlers[i].beginPc <= pc < handlers[i].endPc && 0 <= j < |handlers[i].cases| ==>
          !Takes(handlers[i].cases[j], msg))
    && l.pc == handlers[k].cases[c].pc
    && l.exceptionOffset == if handlers[k].exceptionOffset > 0 then handlers[k].exceptionOffset else 0
  }

  /** The lookup lands where the first such case says, and nowhere when there is none. */
  lemma HandlerExactly(handlers: seq<Handler>, pc: int, msg: string, l: Landing)
    ensures FindHandler(handlers, pc, msg) == Some(l) <==>
      exists k: nat, c: nat :: IsLanding(handlers, pc, msg, k, c, l)
  {
    var first := FirstHandler(handlers, pc, msg);
    if FindHandler(handlers, pc, msg) == Some(l) {
      NoEarlierCase(handlers, pc, msg, first);
      assert IsLanding(handlers, pc, msg, first, FindCase(handlers[first].cases, msg), l);
    }
    if k: nat, c: nat :| IsLanding(handlers, pc, msg, k, c, l) {
      assert FindCase(handlers[k].cases, msg) == c;
      assert Handles(handlers[k], pc, msg) && first == k;
    }
  }

  lemma NoEarlierCase(handlers: seq<Handler>, pc: int, msg: string, first: nat)
    requires first <= |handlers| && forall k :: 0 <= k < first ==> !Handles(handlers[k], pc, msg)
    ensures forall i, j :: 0 <= i < first && Covers(handlers[i], pc) && 0 <= j < |handlers[i].cases| ==>
      !TakesIt(handlers[i].cases[j], msg)
  {
  }

  /** The call that made the frame at `base`, and the frame it was made in. */
  function CallerFrame(data: Buffer, unwindFloor: nat, base: nat): (r: Option<(int, nat)>)
    ensures r.Some? ==> r.value.1 < base && base > unwindFloor && base + FRAME_HEADER_SIZE <= |data|
  {
    if base <= unwindFloor || base + FRAME_HEADER_SIZE > |data| then None
    else
      var savedPc := ReadWord(data, base);
      if savedPc <= 0 then None
      else
        var callerBase := AsUsize(ReadWord(data, base + 4));
        if callerBase >= base then None else Some((savedPc - 1, callerBase))
  }

  /**
   The frame at `base` has a caller the search may go to if and only if it lies
   above the floor, its header is in the buffer, the pc saved there is a real
   return address, and the base saved there is lower; the call is the instruction
   before that pc.
   */
  lemma CallerExactly(data: Buffer, unwindFloor: nat, base: nat, pc: int, callerBase: nat)
    ensures CallerFrame(data, unwindFloor, base) == Some((pc, callerBase)) <==>
      && unwindFloor < base && base + 16 <= |data|
      && ReadWord(data, base) == pc + 1 && pc + 1 > 0
      && AsUsize(ReadWord(data, base + 4)) == callerBase < base
  {
  }

  /** The frame an exception ends in, searching outwards from `base`. */
  datatype Catch = Catch(base: nat, landing: Landing)

  function Search(data: Buffer, unwindFloor: nat, handlers: seq<Handler>, msg: string, pc: int,
                  base: nat): Option<Catch>
    decreases base
  {
    match FindHandler(handlers, pc, msg)
    case Some(landing) => Some(Catch(base, landing))
    case None =>
      match CallerFrame(data, unwindFloor, base)
      case None => None
      case Some((callerPc, callerBase)) => Search(data, unwindFloor, handlers, msg, callerPc, callerBase)
  }

  /** The search gets from the frame at `inner` to the one at `outer`. */
  predicate Walks(data: Buffer, unwindFloor: nat, inner: nat, outer: nat)
    decreases inner
  {
    inner == outer ||
    (CallerFrame(data, unwindFloor, inner).Some?
      && Walks(data, unwindFloor, CallerFrame(data, unwindFloor, inner).value.1, outer))
  }

  lemma {:induction false} WalksExtend(data: Buffer, unwindFloor: nat, inner: nat, mid: nat)
    requires Walks(data, unwindFloor, inner, mid) && CallerFrame(data, unwindFloor, mid).Some?
    ensures Walks(data, unwindFloor, inner, CallerFrame(data, unwindFloor, mid).value.1)
    decreases inner
  {
    if inner != mid {
      WalksExtend(data, unwindFloor, CallerFrame(data, unwindFloor, inner).value.1, mid);
    }
  }

  /** Popping until the current base is no higher than `base`. */
  function PoppedTo(img: FrameImage, base: nat): FrameImage
    decreases img.currentBase
  {
    if img.currentBase <= base then img
    else match Popped(img)
      case Ok((next, _)) => if next.currentBase < img.currentBase then PoppedTo(next, base) else next
      case _ => img
  }

  /** The frames left once everything above the catching frame is popped, with the exception stored in it. */
  function Caught(img: FrameImage, c: Catch, value: Word): FrameImage {
    Stored(PoppedTo(img, c.base), c.landing.exceptionOffset, value)
  }

  /** A word stored in the data area of the current frame. */
  function Stored(img: FrameImage, offset: nat, value: Word): FrameImage {
    img.(data := WriteWord(img.data, img.currentBase + FRAME_HEADER_SIZE + offset, value))
  }

  /** A pop from a frame the search went through goes down, even after the buffer above it was cut. */
  lemma PopDescends(data: Buffer, unwindFloor: nat, img: FrameImage, base: nat)
    requires Walks(data, unwindFloor, img.currentBase, base) && base < img.currentBase
    requires img.currentBase < |img.data| <= |data| && img.data == data[..|img.data|]
    ensures Popped(img).Ok?
    ensures var next := Popped(img).value.0;
      && next.currentBase < img.currentBase
      && next.data == data[..img.currentBase]
      && (Walks(data, unwindFloor, next.currentBase, base) || next.currentBase == 0)
  {
    var at := img.currentBase + 4;
    if at + 4 <= |img.data| {
      WordFrame(data, img.data, at);
    }
  }

  /** The part of the VM state the unwinder works on. */
  class VmState {
    var pc: nat
    var nextPc: nat
    var unwindFloor: nat
    /** The handler table of the module being executed. */
    var handlers: seq<Handler>
    const frames: FrameStack

    constructor (stack: FrameStack, table: seq<Handler>)
      ensures frames == stack && handlers == table && pc == 0 && nextPc == 0 && unwindFloor == 0
    {
      frames, handlers, pc, nextPc, unwindFloor := stack, table, 0, 0, 0;
    }

    /** The loop over the frame chain, outwards from the current frame. */
    method FindCatch(msg: string) returns (r: Option<Catch>)
      ensures r == Search(frames.data, unwindFloor, handlers, msg, pc, frames.currentBase)
      ensures r.Some? ==> Walks(frames.data, unwindFloor, frames.currentBase, r.value.base)
    {
      var at: int := pc;
      var base := frames.currentBase;
      while true
        invariant Search(frames.data, unwindFloor, handlers, msg, at, base) ==
          Search(frames.data, unwindFloor, handlers, msg, pc, frames.currentBase)
        invariant Walks(frames.data, unwindFloor, frames.currentBase, base)
        decreases base
      {
        var found := FindHandler(handlers, at, msg);
        if found.Some? {
          return Some(Catch(base, found.value));
        }
        var caller := CallerFrame(frames.data, unwindFloor, base);
        if caller.None? {
          return None;
        }
        WalksExtend(frames.data, unwindFloor, frames.currentBase, base);
        at, base := caller.value.0, caller.value.1;
      }
    }

    /** False when no handler takes the exception; then nothing has changed. */
    method RaiseExceptionWithValue(msg: string, value: Word) returns (caught: bool)
      modifies this`nextPc, frames
      ensures match Search(old(frames.data), unwindFloor, handlers, msg, pc, old(frames.currentBase))
        case None => !caught && frames.Image() == old(frames.Image()) && nextPc == old(nextPc)
        case Some(c) => caught && nextPc == c.landing.pc && frames.Image() == Caught(old(frames.Image()), c, value)
    {
      var found := FindCatch(msg);
      if found.None? {
        return false;
      }
      UnwindTo(found.value.base);
      nextPc := found.value.landing.pc;
      StoreException(found.value.landing.exceptionOffset, value);
      return true;
    }

    method StoreException(exceptionOffset: nat, value: Word)
      modifies frames
      ensures frames.Image() == Stored(old(frames.Image()), exceptionOffset, value)
    {
      var off := frames.CurrentDataOffset() + exceptionOffset;
      if off + 4 <= |frames.data| {
        frames.data := WriteWord(frames.data, off, value);
      }
    }

    /** Pop the frames between the raise site and the handler. */
    method UnwindTo(base: nat)
      requires Walks(frames.data, unwindFloor, frames.currentBase, base)
      modifies frames
      ensures frames.Image() == PoppedTo(old(frames.Image()), base)
    {
      ghost var data := frames.data;
      while frames.currentBase > base
        invariant PoppedTo(frames.Image(), base) == PoppedTo(old(frames.Image()), base)
        invariant frames.currentBase > base ==>
          && Walks(data, unwindFloor, frames.currentBase, base)
          && frames.currentBase < |frames.data| <= |data| && frames.data == data[..|frames.data|]
        decreases frames.currentBase
      {
        PopDescends(data, unwindFloor, frames.Image(), base);
        var popped := frames.Pop();
      }
    }
  }

  // --- What this means on a chain of open calls ---

  /** The pc at which frame `k` is executing: its own, or the call that is open in it. */
  function PcAt(acts: seq<Activation>, pc: int, k: nat): int
    requires k < |acts|
  {
    if k == |acts| - 1 then pc else acts[k + 1].savedPc - 1
  }

  /** The unwinder may end in frame `k`: no frame above it is at or below the floor. */
  predicate MayEndIn(acts: seq<Activation>, unwindFloor: nat, k: nat)
    requires k < |acts|
  {
    k == |acts| - 1 || acts[k + 1].base > unwindFloor
  }

  /** The buffer holds the headers of a chain of calls from the entry frame up. */
  ghost predicate ChainIn(data: Buffer, acts: seq<Activation>) {
    && acts != [] && acts[0].base == 0 && |data| < 0x8000_0000
    && Stacked(acts) && SavedByCalls(acts)
    && forall i :: 0 <= i < |acts| ==> HeaderAt(data, acts, i)
  }

  lemma CallerOnChain(data: Buffer, acts: seq<Activation>, unwindFloor: nat, k: nat)
    requires k < |acts| && ChainIn(data, acts)
    ensures CallerFrame(data, unwindFloor, acts[k].base) ==
      if k == 0 || acts[k].base <= unwindFloor then None else Some((PcAt(acts, 0, k - 1), acts[k - 1].base))
  {
    assert HeaderAt(data, acts, k);
    if k > 0 {
      HeaderRead(data, acts, k);
    }
  }

  /** Frame `j` is the innermost frame from `k` outwards whose module handles the exception where it stands. */
  predicate IsCatch(acts: seq<Activation>, handlers: seq<Handler>, msg: string, pc: int, k: nat, j: nat, c: Catch)
    requires j <= k < |acts|
  {
    && c.base == acts[j].base
    && FindHandler(handlers, PcAt(acts, pc, j), msg) == Some(c.landing)
    && forall i :: j < i <= k ==> FindHandler(handlers, PcAt(acts, pc, i), msg).None?
  }

  /** The same search over the chain itself, from frame `k` outwards. */
  function Find(acts: seq<Activation>, unwindFloor: nat, handlers: seq<Handler>, msg: string, pc: int,
                k: nat): Option<Catch>
    requires k < |acts|
  {
    match FindHandler(handlers, PcAt(acts, pc, k), msg)
    case Some(landing) => Some(Catch(acts[k].base, landing))
    case None => if k == 0 || acts[k].base <= unwindFloor then None
      else Find(acts, unwindFloor, handlers, msg, pc, k - 1)
  }

  lemma SearchStep(data: Buffer, acts: seq<Activation>, unwindFloor: nat, handlers: seq<Handler>, msg: string,
                   pc: int, k: nat)
    requires k < |acts| && ChainIn(data, acts)
    ensures Search(data, unwindFloor, handlers, msg, PcAt(acts, pc, k), acts[k].base) ==
      match FindHandler(handlers, PcAt(acts, pc, k), msg)
      case Some(landing) => Some(Catch(acts[k].base, landing))
      case None => if k == 0 || acts[k].base <= unwindFloor then None
                   else Search(data, unwindFloor, handlers, msg, PcAt(acts, pc, k - 1), acts[k - 1].base)
  {
    CallerOnChain(data, acts, unwindFloor, k);
    assert k > 0 ==> PcAt(acts, pc, k - 1) == PcAt(acts, 0, k - 1);
  }

  lemma {:induction false} SearchIsFind(data: Buffer, acts: seq<Activation>, unwindFloor: nat, handlers: seq<Handler>,
                                        msg: string, pc: int, k: nat)
    requires k < |acts| && ChainIn(data, acts)
    ensures Search(data, unwindFloor, handlers, msg, PcAt(acts, pc, k), acts[k].base) ==
      Find(acts, unwindFloor, handlers, msg, pc, k)
  {
    SearchStep(data, acts, unwindFloor, handlers, msg, pc, k);
    if k > 0 {
      SearchIsFind(data, acts, unwindFloor, handlers, msg, pc, k - 1);
    }
  }

  lemma {:induction false} FindMisses(acts: seq<Activation>, unwindFloor: nat, handlers: seq<Handler>, msg: string,
                                      pc: int, k: nat, j: nat)
    requires j <= k < |acts| && Stacked(acts)
    requires Find(acts, unwindFloor, handlers, msg, pc, k).None?
    requires j == k || MayEndIn(acts, unwindFloor, j)
    ensures FindHandler(handlers, PcAt(acts, pc, j), msg).None?
  {
    if j < k {
      if j + 1 < k {
        BasesAscend(acts, j + 1, k);
      }
      FindMisses(acts, unwindFloor, handlers, msg, pc, k - 1, j);
    }
  }

  /** The search visits the frames from `k` outwards, down to the floor, and stops at the first that handles. */
  lemma {:induction false} FindCatches(acts: seq<Activation>, unwindFloor: nat, handlers: seq<Handler>, msg: string,
                                       pc: int, k: nat) returns (j: nat)
    requires k < |acts| && Find(acts, unwindFloor, handlers, msg, pc, k).Some?
    ensures j <= k && (j == k || MayEndIn(acts, unwindFloor, j))
    ensures IsCatch(acts, handlers, msg, pc, k, j, Find(acts, unwindFloor, handlers, msg, pc, k).value)
  {
    if FindHandler(handlers, PcAt(acts, pc, k), msg).Some? {
      return k;
    }
    j := FindCatches(acts, unwindFloor, handlers, msg, pc, k - 1);
  }

  lemma {:induction false} PopsExactly(img: FrameImage, acts: seq<Activation>, j: nat)
    requires WellFormed(img, acts) && j < |acts|
    ensures var left := PoppedTo(img, acts[j].base);
      && WellFormed(left, acts[..j + 1])
      && left.data == (if j + 1 < |acts| then Truncate(img.data, acts[j + 1].base) else img.data)
    decreases |acts|
  {
    var n := |acts| - 1;
    if j < n {
      BasesAscend(acts, j, n);
      BasesAscend(acts, n - 1, n);
      PopReverts(img, acts);
      var next := Popped(img).value.0;
      assert PoppedTo(img, acts[j].base) == PoppedTo(next, acts[j].base);
      PopsExactly(next, acts[..n], j);
      assert acts[..n][..j + 1] == acts[..j + 1];
      assert HeaderAt(img.data, acts, n);
      if j + 1 < n {
        BasesAscend(acts, j + 1, n);
        assert Truncate(next.data, acts[j + 1].base) == Truncate(img.data, acts[j + 1].base);
      }
    } else {
      assert acts[..j + 1] == acts;
    }
  }

  /**
   On a chain of open calls, an exception is fatal exactly when no frame the
   unwinder may end in handles it. Otherwise execution resumes in the innermost
   such frame; exactly the frames above it are gone, and of what remains only
   the exception slot in that frame's data may differ.
   */
  lemma UnwindsExactly(img: FrameImage, acts: seq<Activation>, unwindFloor: nat, handlers: seq<Handler>, msg: string,
                       pc: int, value: Word)
    requires WellFormed(img, acts) && SavedByCalls(acts)
    ensures Search(img.data, unwindFloor, handlers, msg, pc, img.currentBase).None? <==>
      forall j :: 0 <= j < |acts| && MayEndIn(acts, unwindFloor, j) ==>
        FindHandler(handlers, PcAt(acts, pc, j), msg).None?
    ensures Search(img.data, unwindFloor, handlers, msg, pc, img.currentBase).Some? ==>
      Resumes(img, acts, unwindFloor, handlers, msg, pc,
        Search(img.data, unwindFloor, handlers, msg, pc, img.currentBase).value, value)
  {
    var n := |acts| - 1;
    SearchIsFind(img.data, acts, unwindFloor, handlers, msg, pc, n);
    var r := Find(acts, unwindFloor, handlers, msg, pc, n);
    if r.Some? {
      var j := FindCatches(acts, unwindFloor, handlers, msg, pc, n);
      StoresInCatcher(img, acts, j, r.value, value);
      assert MayEndIn(acts, unwindFloor, j) && FindHandler(handlers, PcAt(acts, pc, j), msg).Some?;
    } else {
      forall j | 0 <= j < |acts| && MayEndIn(acts, unwindFloor, j)
        ensures FindHandler(handlers, PcAt(acts, pc, j), msg).None?
      {
        FindMisses(acts, unwindFloor, handlers, msg, pc, n, j);
      }
    }
  }

  /** Execution resumes in the innermost frame that may and does handle the exception. */
  ghost predicate Resumes(img: FrameImage, acts: seq<Activation>, unwindFloor: nat, handlers: seq<Handler>,
                          msg: string, pc: int, c: Catch, value: Word)
    requires acts != []
  {
    exists j ::
      && 0 <= j < |acts|
      && MayEndIn(acts, unwindFloor, j)
      && IsCatch(acts, handlers, msg, pc, |acts| - 1, j, c)
      && ResumesIn(img, acts, j, c, value, Caught(img, c, value))
  }

  /** The state after the unwinder ends in frame `j`. */
  ghost predicate ResumesIn(img: FrameImage, acts: seq<Activation>, j: nat, c: Catch, value: Word, after: FrameImage)
    requires j < |acts|
  {
    var len := if j + 1 < |acts| then acts[j + 1].base else |img.data|;
    var slot := acts[j].base + FRAME_HEADER_SIZE + c.landing.exceptionOffset;
    && WellFormed(after, acts[..j + 1])
    && |after.data| == len <= |img.data|
    && (slot + 4 <= len ==> ReadWord(after.data, slot) == value)
    && forall i :: 0 <= i < len && !(slot <= i < slot + 4) ==> after.data[i] == img.data[i]
  }

  lemma StoresInCatcher(img: FrameImage, acts: seq<Activation>, j: nat, c: Catch, value: Word)
    requires WellFormed(img, acts) && j < |acts| && c.base == acts[j].base
    ensures ResumesIn(img, acts, j, c, value, Caught(img, c, value))
  {
    PopsExactly(img, acts, j);
    SlotOnly(img, acts, j, PoppedTo(img, c.base), c, value);
  }

  /** Storing the exception touches its slot alone. */
  lemma SlotOnly(img: FrameImage, acts: seq<Activation>, j: nat, left: FrameImage, c: Catch, value: Word)
    requires WellFormed(img, acts) && j < |acts| && c.base == acts[j].base
    requires WellFormed(left, acts[..j + 1])
    requires left.data == (if j + 1 < |acts| then Truncate(img.data, acts[j + 1].base) else img.data)
    ensures ResumesIn(img, acts, j, c, value, Stored(left, c.landing.exceptionOffset, value))
  {
    assert j + 1 < |acts| ==> HeaderAt(img.data, acts, j + 1);
    var slot := left.currentBase + FRAME_HEADER_SIZE + c.landing.exceptionOffset;
    WordRoundTrip(left.data, slot, value);
    StoreAbove(left, acts[..j + 1], slot, value);
  }
}
