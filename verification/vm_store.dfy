/** The typed accessors of the VM (vm.rs) on its own fields, each one access to the flat store. */
module VmStores {
  import opened Memory
  import opened Heaps
  import opened Addresses
  import opened FlatStores
  import Frames = FrameStacks

  class VmMemory {
    var frame: Buffer
    var mp: Buffer
    var currentLoadedModule: Option<nat>
    var callerMpStack: seq<(nat, Buffer)>
    var loadedMps: seq<Buffer>
    const heap: Heap

    constructor (heap: Heap, frame: Buffer, mp: Buffer)
      ensures this.heap == heap
      ensures State() == Store(frame, mp, None, [], [], heap.objects)
    {
      this.heap, this.frame, this.mp := heap, frame, mp;
      currentLoadedModule, callerMpStack, loadedMps := None, [], [];
    }

    function State(): Store
      reads this, heap
    {
      Store(frame, mp, currentLoadedModule, callerMpStack, loadedMps, heap.objects)
    }

    /** The search that `module_mp` and `module_mp_mut` share: whose buffer holds a module's data now. */
    method FindModuleMp(moduleIdx: nat) returns (r: Option<Region>)
      ensures r == ModuleRegion(State(), moduleIdx)
    {
      if moduleIdx == CurrentModule(currentLoadedModule) {
        return Some(CurrentMp);
      }
      var i := |callerMpStack|;
      while i > 0
        invariant 0 <= i <= |callerMpStack|
        invariant forall k :: i <= k < |callerMpStack| ==> callerMpStack[k].0 != moduleIdx
      {
        i := i - 1;
        if callerMpStack[i].0 == moduleIdx {
          return Some(CallerMp(i));
        }
      }
      if moduleIdx == 0 || moduleIdx > |loadedMps| {
        return None;
      }
      return Some(LoadedMp(moduleIdx - 1));
    }

    method ModuleMpBytes(moduleIdx: nat) returns (r: Option<Buffer>)
      ensures r == match ModuleRegion(State(), moduleIdx)
        case Some(region) => Some(BytesOf(State(), region))
        case None => None
    {
      var region := FindModuleMp(moduleIdx);
      match region {
        case Some(CurrentMp) => return Some(mp);
        case Some(CallerMp(i)) => return Some(callerMpStack[i].1);
        case Some(LoadedMp(i)) => return Some(loadedMps[i]);
        case _ => return None;
      }
    }

    method SetModuleMp(moduleIdx: nat, bytes: Buffer)
      requires ModuleRegion(State(), moduleIdx).Some?
      modifies this`mp, this`callerMpStack, this`loadedMps
      ensures State() == WithBytes(old(State()), ModuleRegion(old(State()), moduleIdx).value, bytes)
    {
      var region := FindModuleMp(moduleIdx);
      match region {
        case Some(CurrentMp) => mp := bytes;
        case Some(CallerMp(i)) => callerMpStack := callerMpStack[i := (callerMpStack[i].0, bytes)];
        case Some(LoadedMp(i)) => loadedMps := loadedMps[i := bytes];
      }
    }

    method HeapWrite(id: HeapId, offset: nat, bytes: Buffer)
      requires SlicesDescend(heap.objects)
      modifies heap`objects
      ensures State() == Stored(old(State()), HeapArray(id, offset), bytes)
      decreases id
    {
      if Live(heap.objects, id) && heap.objects[id].data.ArraySlice? {
        HeapWrite(heap.objects[id].data.parent, heap.objects[id].data.byteStart + offset, bytes);
        return;
      }
      ghost var was := State();
      if HasBytes(heap.objects, id) && offset + |bytes| <= |heap.objects[id].data.bytes| {
        heap.objects := SetBytes(heap.objects, id, Patch(heap.objects[id].data.bytes, offset, bytes));
      } else {
        OutOfRange(was, HeapArray(id, offset), bytes);
      }
    }

    method ReadWordAt(target: AddrTarget, imm: Word) returns (r: Word)
      requires SlicesDescend(heap.objects)
      ensures r == LoadWord(State(), target, imm)
    {
      WordOfBytes(frame, if target.Frame? then target.offset else 0);
      match target {
        case Frame(off) => return ReadWord(frame, off);
        case Mp(off) =>
          WordOfBytes(mp, off);
          return if off + 4 <= |mp| then ReadWord(mp, off) else 0;
        case ModuleMp(m, off) =>
          var bytes := ModuleMpBytes(m);
          if bytes.None? {
            return 0;
          }
          WordOfBytes(bytes.value, off);
          return if off + 4 <= |bytes.value| then ReadWord(bytes.value, off) else 0;
        case Immediate => return imm;
        case NoTarget => return 0;
        case HeapArray(id, off) =>
          HeapSliceLoads(State(), id, off, 4);
          var b := HeapSlice(heap.objects, id, off, 4);
          return if b.Some? then ReadWord(b.value, 0) else 0;
      }
    }

    /** False for a write to an immediate, which changes nothing. */
    method WriteWordAt(target: AddrTarget, val: Word) returns (ok: bool)
      requires SlicesDescend(heap.objects)
      modifies this`frame, this`mp, this`callerMpStack, this`loadedMps, heap`objects
      ensures ok == !target.Immediate?
      ensures State() == Stored(old(State()), target, WordBytes(val))
    {
      ghost var was := State();
      match target {
        case Frame(off) => frame := WriteWord(frame, off, val);
        case Mp(off) =>
          if off + 4 <= |mp| {
            mp := WriteWord(mp, off, val);
          } else {
            OutOfRange(was, target, WordBytes(val));
          }
        case ModuleMp(m, off) =>
          var bytes := ModuleMpBytes(m);
          if bytes.Some? && off + 4 <= |bytes.value| {
            SetModuleMp(m, WriteWord(bytes.value, off, val));
          } else {
            OutOfRange(was, target, WordBytes(val));
          }
        case Immediate => return false;
        case NoTarget =>
        case HeapArray(id, off) =>
          var buf := WriteWord(Zeros(4), 0, val);
          assert buf == WordBytes(val);
          HeapWrite(id, off, buf);
      }
      return true;
    }

    method ReadBigAt(target: AddrTarget, imm: Word) returns (r: Big)
      requires SlicesDescend(heap.objects)
      ensures r == LoadBig(State(), target, imm)
    {
      BigOfBytes(frame, if target.Frame? then target.offset else 0);
      match target {
        case Frame(off) => return ReadBig(frame, off);
        case Mp(off) =>
          BigOfBytes(mp, off);
          return ReadBig(mp, off);
        case ModuleMp(m, off) =>
          var bytes := ModuleMpBytes(m);
          if bytes.None? {
            return 0;
          }
          BigOfBytes(bytes.value, off);
          return if off + 8 <= |bytes.value| then ReadBig(bytes.value, off) else 0;
        case Immediate => return imm;
        case NoTarget => return 0;
        case HeapArray(id, off) =>
          HeapSliceLoads(State(), id, off, 8);
          var b := HeapSlice(heap.objects, id, off, 8);
          return if b.Some? then ReadBig(b.value, 0) else 0;
      }
    }

    method WriteBigAt(target: AddrTarget, val: Big) returns (ok: bool)
      requires SlicesDescend(heap.objects)
      modifies this`frame, this`mp, this`callerMpStack, this`loadedMps, heap`objects
      ensures ok == !target.Immediate?
      ensures State() == Stored(old(State()), target, BigBytes(val))
    {
      ghost var was := State();
      match target {
        case Frame(off) => frame := WriteBig(frame, off, val);
        case Mp(off) => mp := WriteBig(mp, off, val);
        case ModuleMp(m, off) =>
          var bytes := ModuleMpBytes(m);
          if bytes.Some? && off + 8 <= |bytes.value| {
            SetModuleMp(m, WriteBig(bytes.value, off, val));
          } else {
            OutOfRange(was, target, BigBytes(val));
          }
        case Immediate => return false;
        case NoTarget =>
        case HeapArray(id, off) =>
          var buf := WriteBig(Zeros(8), 0, val);
          assert buf == BigBytes(val);
          HeapWrite(id, off, buf);
      }
      return true;
    }

    method ReadByteAt(target: AddrTarget, imm: Word) returns (r: Byte)
      requires SlicesDescend(heap.objects)
      ensures r == LoadByte(State(), target, imm)
    {
      match target {
        case Frame(off) => return ByteOf(frame, off);
        case Mp(off) => return ByteOf(mp, off);
        case ModuleMp(m, off) =>
          var bytes := ModuleMpBytes(m);
          return if bytes.Some? then ByteOf(bytes.value, off) else 0;
        case Immediate => return imm % 256;
        case NoTarget => return 0;
        case HeapArray(id, off) =>
          HeapSliceLoads(State(), id, off, 1);
          var b := HeapSlice(heap.objects, id, off, 1);
          return if b.Some? then b.value[0] else 0;
      }
    }

    method WriteByteAt(target: AddrTarget, val: Byte) returns (ok: bool)
      requires SlicesDescend(heap.objects)
      modifies this`frame, this`mp, this`callerMpStack, this`loadedMps, heap`objects
      ensures ok == !target.Immediate?
      ensures State() == Stored(old(State()), target, [val])
    {
      ghost var was := State();
      match target {
        case Frame(off) => frame := WithByte(frame, off, val);
        case Mp(off) => mp := WithByte(mp, off, val);
        case ModuleMp(m, off) =>
          var bytes := ModuleMpBytes(m);
          if bytes.Some? && off < |bytes.value| {
            SetModuleMp(m, WithByte(bytes.value, off, val));
          } else {
            OutOfRange(was, target, [val]);
          }
        case Immediate => return false;
        case NoTarget =>
        case HeapArray(id, off) => HeapWrite(id, off, [val]);
      }
      return true;
    }

    /**
     Point the destination at `newId`, taking a reference to it before dropping
     the one that was there. An immediate is refused, with the reference taken.
     */
    method MovePtrToDst(dst: AddrTarget, imm: Word, newId: HeapId) returns (ok: bool)
      requires newId < 0x1_0000_0000 && SlicesDescend(heap.objects)
      modifies this`frame, this`mp, this`callerMpStack, this`loadedMps, heap`objects
      ensures ok == !dst.Immediate?
      ensures State() == if ok then PtrMoved(old(State()), dst, newId) else Counted(old(State()), newId)
    {
      var oldWord := ReadWordAt(dst, imm);
      var oldId := WordId(oldWord);
      TakeRef(newId);
      CountsMoveNothing(old(State()), newId);
      ok := WriteWordAt(dst, Frames.AsWord(newId));
      if ok {
        DropRef(oldId);
      }
    }

    method TakeRef(id: HeapId)
      modifies heap`objects
      ensures State() == Counted(old(State()), id)
    {
      if id != NIL {
        heap.IncRef(id);
      }
    }

    method DropRef(id: HeapId)
      modifies heap`objects
      ensures State() == old(State()).(objects := Release(old(heap.objects), id))
    {
      if id != NIL {
        heap.DecRef(id);
      }
    }
  }

  function ByteOf(buf: Buffer, off: nat): Byte {
    if off >= |buf| then 0 else buf[off]
  }

  function WithByte(buf: Buffer, off: nat, val: Byte): (r: Buffer)
    ensures r == Patch(buf, off, [val])
  {
    if off >= |buf| then buf else buf[off := val]
  }

  // --- Moving a counted pointer ---

  function Counted(s: Store, id: HeapId): (r: Store) {
    if Live(s.objects, id) then
      s.(objects := s.objects[id := s.objects[id].(refCount := s.objects[id].refCount + 1)])
    else s
  }

  lemma CountsMoveNothing(s: Store, id: HeapId)
    requires SlicesDescend(s.objects)
    ensures SlicesDescend(Counted(s, id).objects)
  {
  }

  function PtrMoved(s: Store, dst: AddrTarget, newId: HeapId): Store
    requires newId < 0x1_0000_0000 && SlicesDescend(s.objects)
  {
    CountsMoveNothing(s, newId);
    var held := Counted(s, newId);
    var written := Stored(held, dst, WordBytes(Frames.AsWord(newId)));
    written.(objects := Release(written.objects, WordId(LoadWord(s, dst, 0))))
  }
}
