/**
 The frame stack (frame.rs): a linked chain of frames inside one byte buffer.
 Each frame starts with a header holding the caller's pc and the caller's base.
 */
module FrameStacks {
  import opened Memory
  import opened Threads

  const FRAME_HEADER_SIZE: nat := 16
  const MAX_FRAME_STACK_SIZE: nat := 0x80_0000

  datatype Result<T> = Ok(value: T) | StackOverflow | InvalidFramePointer | StackUnderflow

  /** `Vec::resize` with zero fill. */
  function Resize(buf: Buffer, n: nat): (r: Buffer)
    ensures |r| == n
  {
    if n <= |buf| then buf[..n] else buf + Zeros(n - |buf|)
  }

  /** `as i32`. */
  function AsWord(n: nat): Word {
    ToSigned(n % 0x1_0000_0000, 0x1_0000_0000)
  }

  /** `as usize`: a negative word becomes a huge offset. */
  function AsUsize(w: Word): nat {
    ToUnsigned(w, 0x1_0000_0000_0000_0000)
  }

  function Entered(img: FrameImage, dataAreaSize: nat, sentinelPc: Word): FrameImage {
    var total := FRAME_HEADER_SIZE + dataAreaSize;
    FrameImage(WriteWord(WriteWord(Resize(img.data, total), 0, sentinelPc), 4, 0), 0, total)
  }

  function Max(a: nat, b: nat): nat {
    if a < b then b else a
  }

  /** The stack with one more pending frame, and the offset of its data area. */
  function WithPending(img: FrameImage, dataAreaSize: nat): Result<(FrameImage, nat)> {
    var newBase := Max(|img.data|, img.currentBase + img.currentSize);
    var newEnd := newBase + FRAME_HEADER_SIZE + dataAreaSize;
    if newEnd > MAX_FRAME_STACK_SIZE then StackOverflow
    else Ok((img.(data := Resize(img.data, newEnd)), newBase + FRAME_HEADER_SIZE))
  }

  function Activated(img: FrameImage, dataAreaOffset: nat, savedPc: Word): Result<FrameImage> {
    if dataAreaOffset < FRAME_HEADER_SIZE || dataAreaOffset > |img.data| then InvalidFramePointer
    else
      var newBase := dataAreaOffset - FRAME_HEADER_SIZE;
      var data := WriteWord(img.data, newBase, savedPc);
      Ok(FrameImage(WriteWord(data, newBase + 4, AsWord(img.currentBase)), newBase, |img.data| - newBase))
  }

  function Truncate(buf: Buffer, n: nat): Buffer {
    if n < |buf| then buf[..n] else buf
  }

  function Popped(img: FrameImage): Result<(FrameImage, Word)> {
    if img.data == [] then StackUnderflow
    else
      var prevPc := ReadWord(img.data, img.currentBase);
      var prevBase := AsUsize(ReadWord(img.data, img.currentBase + 4));
      var data := Truncate(img.data, img.currentBase);
      Ok((if data == [] then FrameImage(data, 0, 0)
          else if img.currentBase >= prevBase then FrameImage(data, prevBase, img.currentBase - prevBase)
          else FrameImage(data, 0, |data|), prevPc))
  }

  /**
   The spawner's stack once its pending frame has been cut out as a thread of
   its own, and that thread's stack.
   */
  function Spawned(img: FrameImage, dataAreaOffset: nat): Result<(FrameImage, FrameImage)> {
    match Activated(img, dataAreaOffset, -1)
    case Ok(top) =>
      var child := top.data[top.currentBase..];
      var left := top.data[..top.currentBase];
      var prevBase := AsUsize(ReadWord(child, 4));
      Ok((if prevBase < |left| then FrameImage(left, prevBase, |left| - prevBase) else FrameImage(left, 0, |left|),
          FrameImage(child, 0, |child|)))
    case _ => InvalidFramePointer
  }

  class FrameStack {
    var data: Buffer
    var currentBase: nat
    var currentSize: nat

    function Image(): FrameImage
      reads this
    {
      FrameImage(data, currentBase, currentSize)
    }

    constructor ()
      ensures Image() == FrameImage([], 0, 0)
    {
      data, currentBase, currentSize := [], 0, 0;
    }

    method PushEntry(dataAreaSize: nat, sentinelPc: Word)
      modifies this
      ensures Image() == Entered(old(Image()), dataAreaSize, sentinelPc)
    {
      var total := FRAME_HEADER_SIZE + dataAreaSize;
      data := Resize(data, total);
      data := WriteWord(data, 0, sentinelPc);
      data := WriteWord(data, 4, 0);
      currentBase := 0;
      currentSize := total;
    }

    function CurrentDataOffset(): nat
      reads this
    {
      currentBase + FRAME_HEADER_SIZE
    }

    method AllocPending(dataAreaSize: nat) returns (r: Result<nat>)
      modifies this`data
      ensures match WithPending(old(Image()), dataAreaSize)
        case Ok((img, offset)) => r == Ok(offset) && Image() == img
        case _ => r == StackOverflow && Image() == old(Image())
    {
      var newBase := Max(|data|, currentBase + currentSize);
      var newEnd := newBase + FRAME_HEADER_SIZE + dataAreaSize;
      if newEnd > MAX_FRAME_STACK_SIZE {
        return StackOverflow;
      }
      data := Resize(data, newEnd);
      return Ok(newBase + FRAME_HEADER_SIZE);
    }

    method ActivatePending(dataAreaOffset: nat, savedPc: Word) returns (r: Result<()>)
      modifies this
      ensures match Activated(old(Image()), dataAreaOffset, savedPc)
        case Ok(img) => r == Ok(()) && Image() == img
        case _ => r == InvalidFramePointer && Image() == old(Image())
    {
      if dataAreaOffset < FRAME_HEADER_SIZE || dataAreaOffset > |data| {
        return InvalidFramePointer;
      }
      var newBase := dataAreaOffset - FRAME_HEADER_SIZE;
      var newSize := |data| - newBase;
      data := WriteWord(data, newBase, savedPc);
      data := WriteWord(data, newBase + 4, AsWord(currentBase));
      currentBase := newBase;
      currentSize := newSize;
      return Ok(());
    }

    method Pop() returns (r: Result<Word>)
      modifies this
      ensures match Popped(old(Image()))
        case Ok((img, pc)) => r == Ok(pc) && Image() == img
        case _ => r == StackUnderflow && Image() == old(Image())
    {
      if data == [] {
        return StackUnderflow;
      }
      var prevPc := ReadWord(data, currentBase);
      var prevBase := AsUsize(ReadWord(data, currentBase + 4));
      data := Truncate(data, currentBase);
      if data == [] {
        currentBase := 0;
        currentSize := 0;
      } else if currentBase >= prevBase {
        currentSize := currentBase - prevBase;
        currentBase := prevBase;
      } else {
        currentBase := 0;
        currentSize := |data|;
      }
      return Ok(prevPc);
    }
  }

  /** What `spawn` does to the frame stacks (ops/concurrency.rs). */
  method Spawn(frames: FrameStack, framePtr: nat) returns (r: Result<FrameStack>)
    modifies frames
    ensures match Spawned(old(frames.Image()), framePtr)
      case Ok((left, child)) =>
        && frames.Image() == left
        && r.Ok? && fresh(r.value) && r.value.Image() == child
      case _ => r == InvalidFramePointer && frames.Image() == old(frames.Image())
  {
    var activated := frames.ActivatePending(framePtr, -1);
    if !activated.Ok? {
      return InvalidFramePointer;
    }
    var childBase := frames.currentBase;
    var childData := frames.data[childBase..];
    frames.data := Truncate(frames.data, childBase);
    var prevBase := AsUsize(ReadWord(childData, 4));
    if prevBase < |frames.data| {
      frames.currentBase := prevBase;
      frames.currentSize := |frames.data| - prevBase;
    } else {
      frames.currentBase := 0;
      frames.currentSize := |frames.data|;
    }
    var child := new FrameStack();
    child.data := childData;
    child.currentBase := 0;
    child.currentSize := |childData|;
    return Ok(child);
  }
}

/** The chain of active frames, and what calls and returns do to it. */
module FrameChains {
  import opened Memory
  import opened Threads
  import opened FrameStacks

  /** An active frame: where it starts, and the pc its caller saved in it. */
  datatype Activation = Activation(base: nat, savedPc: Word)

  /**
   Frame `k`'s header says what frame `k` of the chain says. The entry frame has
   no caller: its second word is zero on a first thread's stack, and on a
   spawned thread's the base its spawner was at.
   */
  predicate HeaderAt(data: Buffer, acts: seq<Activation>, k: nat)
    requires k < |acts|
  {
    && acts[k].base + FRAME_HEADER_SIZE <= |data|
    && ReadWord(data, acts[k].base) == acts[k].savedPc
    && (k > 0 ==> ReadWord(data, acts[k].base + 4) == AsWord(acts[k - 1].base))
  }

  /** Each frame starts past its caller's header. */
  predicate Stacked(acts: seq<Activation>) {
    forall k :: 0 < k < |acts| ==> acts[k - 1].base + FRAME_HEADER_SIZE <= acts[k].base
  }

  /** The buffer holds the chain `acts`, entry frame first, and the current frame is its last. */
  ghost predicate WellFormed(img: FrameImage, acts: seq<Activation>) {
    && acts != []
    && acts[0].base == 0
    && acts[|acts| - 1].base == img.currentBase
    && img.currentBase + img.currentSize <= |img.data| < 0x8000_0000
    && Stacked(acts)
    && forall k :: 0 <= k < |acts| ==> HeaderAt(img.data, acts, k)
  }

  /** Bases strictly decrease from the current frame to the entry frame at zero. */
  lemma {:induction false} BasesAscend(acts: seq<Activation>, i: nat, j: nat)
    requires Stacked(acts) && i < j < |acts|
    ensures acts[i].base + FRAME_HEADER_SIZE <= acts[j].base
  {
    if i < j - 1 {
      BasesAscend(acts, i, j - 1);
      assert acts[j - 1].base + FRAME_HEADER_SIZE <= acts[j].base;
    }
  }

  lemma BelowLast(img: FrameImage, acts: seq<Activation>, k: nat)
    requires WellFormed(img, acts) && k < |acts| - 1
    ensures acts[k].base + FRAME_HEADER_SIZE <= img.currentBase
  {
    BasesAscend(acts, k, |acts| - 1);
  }

  /** Headers survive whatever leaves their eight bytes alone. */
  lemma HeaderKept(data: Buffer, after: Buffer, acts: seq<Activation>, k: nat)
    requires k < |acts| && HeaderAt(data, acts, k)
    requires acts[k].base + FRAME_HEADER_SIZE <= |after|
    requires forall i :: acts[k].base <= i < acts[k].base + 8 ==> after[i] == data[i]
    ensures HeaderAt(after, acts, k)
  {
    WordFrame(data, after, acts[k].base);
    WordFrame(data, after, acts[k].base + 4);
  }

  lemma EntryWellFormed(size: nat, pc: Word)
    requires FRAME_HEADER_SIZE + size < 0x8000_0000
    ensures WellFormed(Entered(FrameImage([], 0, 0), size, pc), [Activation(0, pc)])
  {
    var zeros := Resize([], FRAME_HEADER_SIZE + size);
    var once := WriteWord(zeros, 0, pc);
    WordRoundTrip(zeros, 0, pc);
    WordFrame(once, WriteWord(once, 4, 0), 0);
    WordRoundTrip(once, 4, 0);
  }

  /** A new pending frame lies above everything and disturbs nothing. */
  lemma PendingKeepsChain(img: FrameImage, acts: seq<Activation>, size: nat)
    requires WellFormed(img, acts) && WithPending(img, size).Ok?
    ensures var (after, offset) := WithPending(img, size).value;
      && WellFormed(after, acts)
      && offset == |img.data| + FRAME_HEADER_SIZE
      && after.data == img.data + Zeros(FRAME_HEADER_SIZE + size)
  {
    var (after, offset) := WithPending(img, size).value;
    assert after.data == img.data + Zeros(FRAME_HEADER_SIZE + size);
    forall k | 0 <= k < |acts| ensures HeaderAt(after.data, acts, k) {
      HeaderKept(img.data, after.data, acts, k);
    }
  }

  /** `activate_pending` writes two words into the new frame's header and nothing else. */
  lemma ActivateWrites(img: FrameImage, offset: nat, pc: Word)
    requires FRAME_HEADER_SIZE <= offset <= |img.data|
    ensures Activated(img, offset, pc).Ok?
    ensures var after := Activated(img, offset, pc).value; var base := offset - FRAME_HEADER_SIZE;
      && |after.data| == |img.data| && after.currentBase == base && after.currentSize == |img.data| - base
      && ReadWord(after.data, base) == pc
      && ReadWord(after.data, base + 4) == AsWord(img.currentBase)
      && forall i :: 0 <= i < |img.data| && !(base <= i < base + 8) ==> after.data[i] == img.data[i]
  {
    var base := offset - FRAME_HEADER_SIZE;
    var after := Activated(img, offset, pc).value;
    var once := WriteWord(img.data, base, pc);
    WordRoundTrip(img.data, base, pc);
    WordFrame(once, after.data, base);
    WordRoundTrip(once, base + 4, AsWord(img.currentBase));
  }

  /** Activating a frame above the current header pushes one link, written only in its own header. */
  lemma ActivateExtends(img: FrameImage, acts: seq<Activation>, offset: nat, pc: Word)
    requires WellFormed(img, acts)
    requires img.currentBase + 2 * FRAME_HEADER_SIZE <= offset <= |img.data|
    ensures Activated(img, offset, pc).Ok?
    ensures var after := Activated(img, offset, pc).value;
      && WellFormed(after, acts + [Activation(offset - FRAME_HEADER_SIZE, pc)])
      && |after.data| == |img.data|
      && forall i :: 0 <= i < |img.data| && !(offset - FRAME_HEADER_SIZE <= i < offset - 8) ==>
        after.data[i] == img.data[i]
  {
    ActivateWrites(img, offset, pc);
    var after := Activated(img, offset, pc).value;
    var more := acts + [Activation(offset - FRAME_HEADER_SIZE, pc)];
    forall k | 0 <= k < |acts| ensures HeaderAt(after.data, more, k) {
      if k < |acts| - 1 {
        BelowLast(img, acts, k);
      }
      HeaderKept(img.data, after.data, acts, k);
      assert HeaderAt(after.data, acts, k);
    }
    assert HeaderAt(after.data, more, |acts|);
  }

  lemma BaseRoundTrip(base: nat)
    requires base < 0x8000_0000
    ensures AsUsize(AsWord(base)) == base
  {
  }

  /** `pop` returns the pc and restores the base its `activate_pending` saved, and keeps every lower byte. */
  lemma PopReverts(img: FrameImage, acts: seq<Activation>)
    requires WellFormed(img, acts) && |acts| > 1
    ensures Popped(img).Ok?
    ensures var (after, pc) := Popped(img).value; var n := |acts| - 1;
      && pc == acts[n].savedPc
      && after.currentBase == acts[n - 1].base
      && after.data == img.data[..acts[n].base]
      && WellFormed(after, acts[..n])
  {
    var n := |acts| - 1;
    var (after, pc) := Popped(img).value;
    assert HeaderAt(img.data, acts, n);
    BelowLast(img, acts, n - 1);
    BaseRoundTrip(acts[n - 1].base);
    var fewer := acts[..n];
    forall k | 0 <= k < n ensures HeaderAt(after.data, fewer, k) {
      assert HeaderAt(img.data, acts, k);
      BelowLast(img, acts, k);
      HeaderKept(img.data, after.data, acts, k);
      assert HeaderAt(after.data, acts, k);
    }
  }

  /** A word stored in the current frame's data area, or above it, leaves the chain alone. */
  lemma StoreAbove(img: FrameImage, acts: seq<Activation>, at: nat, value: Word)
    requires WellFormed(img, acts) && img.currentBase + FRAME_HEADER_SIZE <= at
    ensures WellFormed(img.(data := WriteWord(img.data, at, value)), acts)
  {
    var data := WriteWord(img.data, at, value);
    forall k | 0 <= k < |acts| ensures HeaderAt(data, acts, k) {
      if k < |acts| - 1 {
        BelowLast(img, acts, k);
      }
      HeaderKept(img.data, data, acts, k);
    }
  }

  /**
   Spawning from a pending frame parts the buffer in two: the spawner is back in
   the frame it was in with its chain as it was and every byte below the child
   kept, and the child has the rest, its own header's words apart. The second of
   those still names the spawner's frame.
   */
  lemma SpawnParts(img: FrameImage, acts: seq<Activation>, offset: nat)
    requires WellFormed(img, acts)
    requires img.currentBase + 2 * FRAME_HEADER_SIZE <= offset <= |img.data|
    ensures Spawned(img, offset).Ok?
    ensures var (left, child) := Spawned(img, offset).value; var base := offset - FRAME_HEADER_SIZE;
      && WellFormed(left, acts)
      && left.data == img.data[..base]
      && child.data[8..] == img.data[base + 8..]
      && ReadWord(child.data, 4) == AsWord(img.currentBase)
  {
    ActivateWrites(img, offset, -1);
    var (left, child) := Spawned(img, offset).value;
    WordFromSuffix(Activated(img, offset, -1).value.data, offset - FRAME_HEADER_SIZE, 4);
    BaseRoundTrip(img.currentBase);
    forall k | 0 <= k < |acts| ensures HeaderAt(left.data, acts, k) {
      if k < |acts| - 1 {
        BelowLast(img, acts, k);
      }
      HeaderKept(img.data, left.data, acts, k);
    }
  }

  lemma WordFromSuffix(data: Buffer, from: nat, at: nat)
    requires from <= |data|
    ensures ReadWord(data[from..], at) == ReadWord(data, from + at)
  {
    if from + at + 4 <= |data| {
      assert data[from..][at..at + 4] == data[from + at..from + at + 4];
    }
  }

  /** A spawned thread's stack is a chain of one entry frame, wherever its spawner was. */
  lemma SpawnedWellFormed(img: FrameImage, offset: nat)
    requires |img.data| < 0x8000_0000 && Spawned(img, offset).Ok?
    ensures WellFormed(Spawned(img, offset).value.1, [Activation(0, -1)])
  {
    ActivateWrites(img, offset, -1);
    WordFromSuffix(Activated(img, offset, -1).value.data, offset - FRAME_HEADER_SIZE, 0);
  }

  // --- Whatever the buffer holds ---

  /** Room for a header and the data, as low as neither the buffer nor the current frame is in the way, up to 8 MiB. */
  lemma PendingExactly(img: FrameImage, size: nat, base: nat)
    requires base >= |img.data| && base >= img.currentBase + img.currentSize
    requires base == |img.data| || base == img.currentBase + img.currentSize
    ensures WithPending(img, size).StackOverflow? <==> base + 16 + size > 0x80_0000
    ensures base + 16 + size <= 0x80_0000 ==>
      WithPending(img, size) == Ok((img.(data := img.data + Zeros(base + 16 + size - |img.data|)), base + 16))
  {
  }

  /** A pop cuts the current frame off and goes where its header says, or to the bottom if that lies above. */
  lemma PopExactly(img: FrameImage)
    ensures Popped(img).StackUnderflow? <==> img.data == []
    ensures img.data != [] ==>
      && Popped(img).Ok?
      && var (after, pc) := Popped(img).value; var saved := AsUsize(ReadWord(img.data, img.currentBase + 4));
      && pc == ReadWord(img.data, img.currentBase)
      && after.data <= img.data
      && |after.data| == (if img.currentBase < |img.data| then img.currentBase else |img.data|)
      && (if after.data == [] then after.currentBase == 0 == after.currentSize
          else if saved <= img.currentBase then
            after.currentBase == saved && saved + after.currentSize == img.currentBase
          else after.currentBase == 0 && after.currentSize == |after.data|)
  {
  }

  /** Returning from the entry frame leaves the stack as it was before anything ran. */
  lemma LastPopEmpties(img: FrameImage, acts: seq<Activation>)
    requires WellFormed(img, acts) && |acts| == 1
    ensures Popped(img) == Ok((FrameImage([], 0, 0), acts[0].savedPc))
  {
    assert HeaderAt(img.data, acts, 0);
  }

  /** After a spawn the spawner is where the child's header says, if anything is left there, and else at the bottom. */
  lemma SpawnExactly(img: FrameImage, offset: nat)
    ensures Spawned(img, offset).InvalidFramePointer? <==> offset < 16 || offset > |img.data|
    ensures 16 <= offset <= |img.data| ==>
      && Spawned(img, offset).Ok?
      && var (left, child) := Spawned(img, offset).value; var saved := AsUsize(ReadWord(child.data, 4));
      && left.data == img.data[..offset - 16] && |left.data| + |child.data| == |img.data|
      && (if saved < |left.data| then left.currentBase == saved && saved + left.currentSize == |left.data|
          else left.currentBase == 0 && left.currentSize == |left.data|)
      && child.currentBase == 0 && child.currentSize == |child.data|
  {
    if 16 <= offset <= |img.data| {
      ActivateWrites(img, offset, -1);
    }
  }

  // --- Runs ---

  datatype Action =
    | Frame(size: nat)
    | Call(offset: nat, pc: Word)
    | Return
    | Spawn(offset: nat)
    | Store(data: Buffer)

  /** The frame stack with the calls that are open on it. */
  datatype Stack = Stack(img: FrameImage, acts: seq<Activation>)

  /** The bytes of no active frame's header change. */
  ghost predicate KeepsHeaders(data: Buffer, after: Buffer, acts: seq<Activation>) {
    && |after| == |data|
    && forall k, i :: 0 <= k < |acts| && acts[k].base <= i < acts[k].base + 8 && i < |data| ==> after[i] == data[i]
  }

  /** A step of a well-behaved run: calls activate frames above the current one, stores hit data areas. */
  ghost predicate Moves(s: Stack, a: Action, t: Stack) {
    match a
    case Frame(size) => WithPending(s.img, size).Ok? && t == Stack(WithPending(s.img, size).value.0, s.acts)
    case Call(offset, pc) =>
      && pc > 0
      && s.img.currentBase + 2 * FRAME_HEADER_SIZE <= offset <= |s.img.data|
      && Activated(s.img, offset, pc).Ok?
      && t == Stack(Activated(s.img, offset, pc).value, s.acts + [Activation(offset - FRAME_HEADER_SIZE, pc)])
    case Return => |s.acts| > 1 && Popped(s.img).Ok? && t == Stack(Popped(s.img).value.0, s.acts[..|s.acts| - 1])
    case Spawn(offset) =>
      && s.img.currentBase + 2 * FRAME_HEADER_SIZE <= offset <= |s.img.data|
      && Spawned(s.img, offset).Ok?
      && t == s.(img := Spawned(s.img, offset).value.0)
    case Store(data) => KeepsHeaders(s.img.data, data, s.acts) && t == s.(img := s.img.(data := data))
  }

  /** The first thread starts in an entry frame, every other one in a frame cut off its spawner's stack. */
  ghost predicate StartsAt(s: Stack) {
    && s.acts == [Activation(0, -1)]
    && (EntersFresh(s.img) || CutOff(s.img))
  }

  ghost predicate EntersFresh(img: FrameImage) {
    exists size: nat :: FRAME_HEADER_SIZE + size < 0x8000_0000 && img == Entered(FrameImage([], 0, 0), size, -1)
  }

  ghost predicate CutOff(child: FrameImage) {
    exists img: FrameImage, offset: nat ::
      |img.data| < 0x8000_0000 && Spawned(img, offset).Ok? && child == Spawned(img, offset).value.1
  }

  ghost predicate IsRun(stacks: seq<Stack>, actions: seq<Action>) {
    && |stacks| == |actions| + 1
    && StartsAt(stacks[0])
    && forall i, j :: 0 <= i < |actions| && j == i + 1 ==> Moves(stacks[i], actions[i], stacks[j])
  }

  /** The entry frame carries the sentinel; every other frame a real return address. */
  predicate SavedByCalls(acts: seq<Activation>) {
    acts != [] && acts[0].savedPc == -1 && forall k :: 0 < k < |acts| ==> acts[k].savedPc > 0
  }

  lemma MoveKeeps(s: Stack, a: Action, t: Stack)
    requires WellFormed(s.img, s.acts) && SavedByCalls(s.acts) && Moves(s, a, t)
    ensures WellFormed(t.img, t.acts) && SavedByCalls(t.acts)
  {
    match a
    case Frame(size) => PendingKeepsChain(s.img, s.acts, size);
    case Call(offset, pc) => ActivateExtends(s.img, s.acts, offset, pc);
    case Return => PopReverts(s.img, s.acts);
    case Spawn(offset) => SpawnParts(s.img, s.acts, offset);
    case Store(data) =>
      forall k | 0 <= k < |s.acts| ensures HeaderAt(data, s.acts, k) {
        assert HeaderAt(s.img.data, s.acts, k);
        HeaderKept(s.img.data, data, s.acts, k);
      }
  }

  lemma StartWellFormed(s: Stack)
    requires StartsAt(s)
    ensures WellFormed(s.img, s.acts)
  {
    if EntersFresh(s.img) {
      var size: nat :| FRAME_HEADER_SIZE + size < 0x8000_0000 && s.img == Entered(FrameImage([], 0, 0), size, -1);
      EntryWellFormed(size, -1);
    } else {
      var img: FrameImage, offset: nat :|
        |img.data| < 0x8000_0000 && Spawned(img, offset).Ok? && s.img == Spawned(img, offset).value.1;
      SpawnedWellFormed(img, offset);
    }
  }

  /**
   In every run, of a first thread or of a spawned one, the buffer holds exactly
   the chain of open calls.
   */
  lemma {:induction false} RunsKeepChain(stacks: seq<Stack>, actions: seq<Action>, i: nat)
    requires IsRun(stacks, actions) && i < |stacks|
    ensures WellFormed(stacks[i].img, stacks[i].acts) && SavedByCalls(stacks[i].acts)
  {
    if i == 0 {
      StartWellFormed(stacks[0]);
    } else {
      RunsKeepChain(stacks, actions, i - 1);
      var before, after := stacks[i - 1], stacks[i];
      assert Moves(before, actions[i - 1], after);
      MoveKeeps(before, actions[i - 1], after);
    }
  }

  lemma ChildStarts(img: FrameImage, offset: nat)
    requires |img.data| < 0x8000_0000 && Spawned(img, offset).Ok?
    ensures IsRun([Stack(Spawned(img, offset).value.1, [Activation(0, -1)])], [])
  {
    assert CutOff(Spawned(img, offset).value.1);
  }

  lemma SpawnMoves(s: Stack, offset: nat, t: Stack)
    requires WellFormed(s.img, s.acts) && Moves(s, Spawn(offset), t)
    ensures Spawned(s.img, offset).Ok?
    ensures t.acts == s.acts && t.img.currentBase == s.img.currentBase && t.img.data <= s.img.data
    ensures Spawned(s.img, offset).value.1.data[8..] == s.img.data[|t.img.data| + 8..]
  {
    SpawnParts(s.img, s.acts, offset);
  }

  /** A thread spawned in a run starts a run of its own, and its spawner goes on in the frame it was in. */
  lemma SpawnStartsRun(stacks: seq<Stack>, actions: seq<Action>, i: nat)
    requires IsRun(stacks, actions) && i < |actions| && actions[i].Spawn?
    ensures Spawned(stacks[i].img, actions[i].offset).Ok?
    ensures var child := Spawned(stacks[i].img, actions[i].offset).value.1;
      && IsRun([Stack(child, [Activation(0, -1)])], [])
      && child.data[8..] == stacks[i].img.data[|stacks[i + 1].img.data| + 8..]
    ensures stacks[i + 1].acts == stacks[i].acts
    ensures stacks[i + 1].img.currentBase == stacks[i].img.currentBase
    ensures stacks[i + 1].img.data <= stacks[i].img.data
  {
    RunsKeepChain(stacks, actions, i);
    assert Moves(stacks[i], actions[i], stacks[i + 1]);
    SpawnMoves(stacks[i], actions[i].offset, stacks[i + 1]);
    ChildStarts(stacks[i].img, actions[i].offset);
  }

  /** A call is open from step `i` up to step `j`. */
  ghost predicate OpenBetween(stacks: seq<Stack>, i: nat, j: nat)
    requires i < j < |stacks|
  {
    forall k :: i < k <= j ==> |stacks[k].acts| > |stacks[i].acts|
  }

  lemma {:induction false} LowerCallsUntouched(stacks: seq<Stack>, actions: seq<Action>, i: nat, j: nat)
    requires IsRun(stacks, actions) && i < j < |stacks|
    requires actions[i].Call? && OpenBetween(stacks, i, j)
    ensures stacks[j].acts[..|stacks[i].acts| + 1] == stacks[i + 1].acts
  {
    assert Moves(stacks[i], actions[i], stacks[i + 1]);
    if j > i + 1 {
      assert OpenBetween(stacks, i, j - 1);
      LowerCallsUntouched(stacks, actions, i, j - 1);
      assert Moves(stacks[j - 1], actions[j - 1], stacks[j]);
      var n := |stacks[i].acts| + 1;
      assert stacks[j].acts[..n] == stacks[j - 1].acts[..n];
    }
  }

  /**
   Matching calls and returns: when the call made at step `i` returns at step
   `j`, the pop yields the pc that call saved and goes back to the frame that
   made it, whatever calls were made and finished in between.
   */
  lemma ReturnMatchesCall(stacks: seq<Stack>, actions: seq<Action>, i: nat, j: nat)
    requires IsRun(stacks, actions) && i < j < |actions|
    requires actions[i].Call? && actions[j] == Return
    requires OpenBetween(stacks, i, j) && |stacks[j + 1].acts| == |stacks[i].acts|
    ensures Popped(stacks[j].img).Ok? && Popped(stacks[j].img).value.1 == actions[i].pc
    ensures stacks[j + 1].img.currentBase == stacks[i].img.currentBase
    ensures stacks[j + 1].acts == stacks[i].acts
    ensures FRAME_HEADER_SIZE <= actions[i].offset <= |stacks[j].img.data| + FRAME_HEADER_SIZE
    ensures stacks[j + 1].img.data == stacks[j].img.data[..actions[i].offset - FRAME_HEADER_SIZE]
  {
    LowerCallsUntouched(stacks, actions, i, j);
    RunsKeepChain(stacks, actions, j);
    RunsKeepChain(stacks, actions, i);
    assert Moves(stacks[j], actions[j], stacks[j + 1]);
    assert Moves(stacks[i], actions[i], stacks[i + 1]);
    PopReverts(stacks[j].img, stacks[j].acts);
    assert stacks[j].acts[..|stacks[i].acts| + 1] == stacks[j].acts;
  }

  // --- The backtrace walk (debugger.rs) ---

  const MAX_BACKTRACE_DEPTH: nat := 100

  datatype BacktraceEntry = Entry | Caller(pc: Word) | Truncated

  /** The entries found from `base` down, after `seen` others. */
  function Backtrace(data: Buffer, base: nat, seen: nat): seq<BacktraceEntry>
    decreases base
  {
    if base + 8 > |data| then []
    else
      var prevPc := ReadWord(data, base);
      var prevBase := AsUsize(ReadWord(data, base + 4));
      if prevPc < 0 then [Entry]
      else if prevBase == 0 || prevBase >= base then [Caller(prevPc)]
      else if seen + 1 >= MAX_BACKTRACE_DEPTH then [Caller(prevPc), Truncated]
      else [Caller(prevPc)] + Backtrace(data, prevBase, seen + 1)
  }

  lemma ContinueWalk(data: Buffer, base: nat, entries: seq<BacktraceEntry>, prevPc: Word, prevBase: nat)
    requires base + 8 <= |data| && prevPc == ReadWord(data, base) && prevPc >= 0
    requires prevBase == AsUsize(ReadWord(data, base + 4)) && 0 < prevBase < base
    ensures |entries| + 1 < MAX_BACKTRACE_DEPTH ==>
      entries + Backtrace(data, base, |entries|) ==
        entries + [Caller(prevPc)] + Backtrace(data, prevBase, |entries| + 1)
    ensures |entries| + 1 >= MAX_BACKTRACE_DEPTH ==>
      entries + Backtrace(data, base, |entries|) == entries + [Caller(prevPc)] + [Truncated]
  {
    var rest := Backtrace(data, base, |entries|);
    if |entries| + 1 < MAX_BACKTRACE_DEPTH {
      assert rest == [Caller(prevPc)] + Backtrace(data, prevBase, |entries| + 1);
    } else {
      assert rest == [Caller(prevPc), Truncated];
    }
  }

  method WalkBacktrace(data: Buffer, currentBase: nat) returns (entries: seq<BacktraceEntry>)
    ensures entries == Backtrace(data, currentBase, 0)
  {
    entries := [];
    var base: nat := currentBase;
    while true
      invariant entries + Backtrace(data, base, |entries|) == Backtrace(data, currentBase, 0)
      decreases base
    {
      if base + 8 > |data| {
        return;
      }
      var prevPc := ReadWord(data, base);
      var prevBase := AsUsize(ReadWord(data, base + 4));
      if prevPc < 0 {
        entries := entries + [Entry];
        return;
      }
      entries := entries + [Caller(prevPc)];
      if prevBase == 0 || prevBase >= base {
        return;
      }
      ContinueWalk(data, base, entries[..|entries| - 1], prevPc, prevBase);
      assert entries[..|entries| - 1] + [Caller(prevPc)] == entries;
      base := prevBase;
      if |entries| >= MAX_BACKTRACE_DEPTH {
        entries := entries + [Truncated];
        return;
      }
    }
  }

  /** What one header adds to the list, whatever it holds, and when the walk goes on from there. */
  lemma BacktraceExactly(data: Buffer, base: nat, seen: nat)
    ensures |data| < base + 8 ==> Backtrace(data, base, seen) == []
    ensures base + 8 <= |data| ==>
      var pc := ReadWord(data, base); var caller := AsUsize(ReadWord(data, base + 4));
      && (pc < 0 ==> Backtrace(data, base, seen) == [Entry])
      && (pc >= 0 && !(0 < caller < base) ==> Backtrace(data, base, seen) == [Caller(pc)])
      && (pc >= 0 && 0 < caller < base && seen >= 99 ==> Backtrace(data, base, seen) == [Caller(pc), Truncated])
      && (pc >= 0 && 0 < caller < base && seen < 99 ==>
            Backtrace(data, base, seen) == [Caller(pc)] + Backtrace(data, caller, seen + 1))
  {
  }

  /** The saved pcs of frames n, n-1, ..., 1, cut after `room` of them. */
  function SavedPcs(acts: seq<Activation>, n: nat, room: nat): seq<BacktraceEntry>
    requires n < |acts|
  {
    if n == 0 then []
    else if room == 0 then [Truncated]
    else [Caller(acts[n].savedPc)] + SavedPcs(acts, n - 1, room - 1)
  }

  /** One header read by the walk, on a chain. */
  lemma HeaderRead(data: Buffer, acts: seq<Activation>, n: nat)
    requires 0 < n < |acts| && Stacked(acts) && acts[0].base == 0 && |data| < 0x8000_0000
    requires forall k :: 0 <= k < |acts| ==> HeaderAt(data, acts, k)
    ensures acts[n].base + 8 <= |data|
    ensures ReadWord(data, acts[n].base) == acts[n].savedPc
    ensures AsUsize(ReadWord(data, acts[n].base + 4)) == acts[n - 1].base < acts[n].base
    ensures acts[n - 1].base == 0 <==> n == 1
  {
    assert HeaderAt(data, acts, n) && HeaderAt(data, acts, n - 1);
    BasesAscend(acts, n - 1, n);
    BaseRoundTrip(acts[n - 1].base);
    if n > 1 {
      BasesAscend(acts, 0, n - 1);
    }
  }

  /** `found(n, seen)` is what a walk from frame `n` lists after `seen` entries; here is one step of it. */
  predicate StepsAt(found: (nat, nat) -> seq<BacktraceEntry>, acts: seq<Activation>, n: nat, seen: nat)
    requires 0 < n < |acts|
  {
    found(n, seen) ==
      if n == 1 then [Caller(acts[n].savedPc)]
      else if seen + 1 >= MAX_BACKTRACE_DEPTH then [Caller(acts[n].savedPc), Truncated]
      else [Caller(acts[n].savedPc)] + found(n - 1, seen + 1)
  }

  lemma {:induction false} StepsList(found: (nat, nat) -> seq<BacktraceEntry>, acts: seq<Activation>, n: nat, seen: nat)
    requires 0 < n < |acts| && seen < MAX_BACKTRACE_DEPTH
    requires forall k: nat, s: nat :: 0 < k < |acts| ==> StepsAt(found, acts, k, s)
    ensures found(n, seen) == SavedPcs(acts, n, MAX_BACKTRACE_DEPTH - seen)
    decreases n
  {
    assert StepsAt(found, acts, n, seen);
    SavedPcsUnfold(acts, n, MAX_BACKTRACE_DEPTH - seen);
    if n > 1 && seen + 1 < MAX_BACKTRACE_DEPTH {
      StepsList(found, acts, n - 1, seen + 1);
    }
  }

  /** On a chain of calls the walk lists the saved pcs. */
  lemma WalkFollowsChain(data: Buffer, acts: seq<Activation>, n: nat, seen: nat)
    requires Stacked(acts) && SavedByCalls(acts) && acts[0].base == 0
    requires |data| < 0x8000_0000 && 0 < n < |acts| && seen < MAX_BACKTRACE_DEPTH
    requires forall k :: 0 <= k < |acts| ==> HeaderAt(data, acts, k)
    ensures Backtrace(data, acts[n].base, seen) == SavedPcs(acts, n, MAX_BACKTRACE_DEPTH - seen)
  {
    var found := (k: nat, s: nat) => if k < |acts| then Backtrace(data, acts[k].base, s) else [];
    forall k: nat, s: nat | 0 < k < |acts| ensures StepsAt(found, acts, k, s) {
      WalkStep(data, acts, k, s);
    }
    StepsList(found, acts, n, seen);
  }

  lemma WalkStep(data: Buffer, acts: seq<Activation>, n: nat, seen: nat)
    requires Stacked(acts) && SavedByCalls(acts) && acts[0].base == 0
    requires |data| < 0x8000_0000 && 0 < n < |acts|
    requires forall k :: 0 <= k < |acts| ==> HeaderAt(data, acts, k)
    ensures Backtrace(data, acts[n].base, seen) ==
      if n == 1 then [Caller(acts[n].savedPc)]
      else if seen + 1 >= MAX_BACKTRACE_DEPTH then [Caller(acts[n].savedPc), Truncated]
      else [Caller(acts[n].savedPc)] + Backtrace(data, acts[n - 1].base, seen + 1)
  {
    HeaderRead(data, acts, n);
    BacktraceUnfolds(data, acts[n].base, seen, acts[n].savedPc, acts[n - 1].base);
  }

  lemma SavedPcsUnfold(acts: seq<Activation>, n: nat, room: nat)
    requires 0 < n < |acts| && room > 0
    ensures SavedPcs(acts, n, room) ==
      if n == 1 then [Caller(acts[n].savedPc)]
      else if room == 1 then [Caller(acts[n].savedPc), Truncated]
      else [Caller(acts[n].savedPc)] + SavedPcs(acts, n - 1, room - 1)
  {
  }

  /** One step of the walk, given what the header at `base` says. */
  lemma BacktraceUnfolds(data: Buffer, base: nat, seen: nat, prevPc: Word, prevBase: nat)
    requires base + 8 <= |data| && prevPc == ReadWord(data, base) && prevPc >= 0
    requires prevBase == AsUsize(ReadWord(data, base + 4)) < base
    ensures Backtrace(data, base, seen) ==
      if prevBase == 0 then [Caller(prevPc)]
      else if seen + 1 >= MAX_BACKTRACE_DEPTH then [Caller(prevPc), Truncated]
      else [Caller(prevPc)] + Backtrace(data, prevBase, seen + 1)
  {
  }

  /**
   The debugger lists exactly the saved pcs, innermost first, cut at a hundred;
   alone in the entry frame, just that.
   */
  lemma BacktraceListsCalls(img: FrameImage, acts: seq<Activation>)
    requires WellFormed(img, acts) && SavedByCalls(acts)
    ensures Backtrace(img.data, img.currentBase, 0) ==
      if |acts| == 1 then [Entry] else SavedPcs(acts, |acts| - 1, MAX_BACKTRACE_DEPTH)
  {
    assert HeaderAt(img.data, acts, 0);
    if |acts| > 1 {
      WalkFollowsChain(img.data, acts, |acts| - 1, 0);
    }
  }

  /** What the list is, entry by entry. */
  lemma {:induction false} SavedPcsMeaning(acts: seq<Activation>, n: nat, room: nat)
    requires n < |acts|
    ensures var r := SavedPcs(acts, n, room);
      && |r| == (if n <= room then n else room + 1)
      && (forall i :: 0 <= i < n && i < room ==> r[i] == Caller(acts[n - i].savedPc))
      && (n > room ==> r[room] == Truncated)
  {
    if n > 0 && room > 0 {
      SavedPcsMeaning(acts, n - 1, room - 1);
    }
  }
}
