/**
 Operand addresses (address.rs), and how `lea` makes them (ops/pointer.rs).

 One 32-bit word names a frame byte, a byte of some module's data, or a heap
 object; a word with the top bit set indexes the table of heap references.
 */
module Addresses {
  import opened Arith
  import opened Memory
  import opened Heaps
  import opened Threads
  import Frames = FrameStacks

  const MP_BASE: nat := 0x80_0000
  const MP_STRIDE: nat := 0x10_0000
  const MAX_MODULES: nat := 128
  const MP_LIMIT: nat := 0x880_0000

  datatype AddrTarget =
    | Frame(offset: nat)
    | Mp(offset: nat)
    | ModuleMp(moduleIdx: nat, offset: nat)
    | Immediate
    | NoTarget
    | HeapArray(id: HeapId, offset: nat)

  datatype Result<T> = Ok(value: T) | Error

  datatype AddressMode =
    | OffsetIndirectFp | OffsetIndirectMp | ImmediateMode | NoMode
    | OffsetDoubleIndirectFp | OffsetDoubleIndirectMp | Reserved

  datatype Operand = Operand(mode: AddressMode, register1: Word, register2: Word)

  type HeapRefs = seq<(HeapId, nat)>

  /** A negative word carries HEAP_REF_FLAG; the rest of it is an index. */
  function RefIndex(w: Word): nat
    requires w < 0
  {
    w + 0x8000_0000
  }

  function DecodeVirtualAddr(addr: Word, register2: nat): AddrTarget {
    if addr == 0 then NoTarget
    else if addr < 0 then NoTarget
    else if addr >= HEAP_ID_BASE then HeapArray(addr, register2)
    else if addr >= MP_LIMIT then NoTarget
    else if addr >= MP_BASE then
      var rel := addr - MP_BASE;
      var offset := rel % MP_STRIDE + register2;
      if offset < MP_STRIDE then ModuleMp(rel / MP_STRIDE, offset) else NoTarget
    else
      var offset := addr + register2;
      if offset < MP_BASE then Frame(offset) else NoTarget
  }

  function OffsetOperand(reg: Word): Result<nat> {
    if reg < 0 then Error else Ok(reg)
  }

  function FrameAddr(fpBase: nat, reg: Word): Result<nat> {
    match OffsetOperand(reg)
    case Error => Error
    case Ok(r) => if fpBase + r < MP_BASE then Ok(fpBase + r) else Error
  }

  /** The target of an indirection through a word of memory. */
  function Indirect(baseVal: Word, register2: nat, heapRefs: HeapRefs): AddrTarget {
    if baseVal == 0 then NoTarget
    else if baseVal < 0 && RefIndex(baseVal) < |heapRefs| then
      var (id, byteOffset) := heapRefs[RefIndex(baseVal)];
      HeapArray(id, byteOffset + register2)
    else DecodeVirtualAddr(baseVal, register2)
  }

  function ResolveOperand(op: Operand, fpBase: nat, stack: Buffer, mp: Buffer, heapRefs: HeapRefs): Result<AddrTarget> {
    match op.mode
    case OffsetIndirectFp =>
      (match FrameAddr(fpBase, op.register1)
       case Ok(addr) => Ok(Frame(addr))
       case Error => Error)
    case OffsetIndirectMp =>
      (match OffsetOperand(op.register1)
       case Ok(off) => Ok(Mp(off))
       case Error => Error)
    case ImmediateMode => Ok(Immediate)
    case NoMode => Ok(NoTarget)
    case OffsetDoubleIndirectFp =>
      (match (FrameAddr(fpBase, op.register1), OffsetOperand(op.register2))
       case (Ok(addr), Ok(register2)) => Ok(Indirect(ReadWord(stack, addr), register2, heapRefs))
       case _ => Error)
    case OffsetDoubleIndirectMp =>
      (match (OffsetOperand(op.register1), OffsetOperand(op.register2))
       case (Ok(off), Ok(register2)) =>
         var target := Indirect(ReadWord(mp, off), register2, heapRefs);
         Ok(if target.Frame? then Mp(target.offset) else target)
       case _ => Error)
    case Reserved => Error
  }

  function EncodeMpAddr(moduleIdx: nat, offset: nat): Result<Word> {
    if moduleIdx >= MAX_MODULES || offset >= MP_STRIDE then Error
    else Ok(MP_BASE + moduleIdx * MP_STRIDE + offset)
  }

  /** The word `lea` stores for a location, and the heap references after it. */
  function Lea(target: AddrTarget, currentModule: nat, heapRefs: HeapRefs, imm: Word): Result<(Word, HeapRefs)> {
    match target
    case Frame(off) => Ok((Frames.AsWord(off), heapRefs))
    case Mp(off) =>
      (match EncodeMpAddr(currentModule, off)
       case Ok(w) => Ok((w, heapRefs))
       case Error => Error)
    case ModuleMp(m, off) =>
      (match EncodeMpAddr(m, off)
       case Ok(w) => Ok((w, heapRefs))
       case Error => Error)
    case HeapArray(id, off) => Ok((Frames.AsWord(0x8000_0000 + |heapRefs| % 0x8000_0000), heapRefs + [(id, off)]))
    case Immediate => Ok((imm, heapRefs))
    case NoTarget => Ok((0, heapRefs))
  }

  lemma ModuleAddress(rel: nat, m: nat, o: nat)
    requires o < MP_STRIDE
    ensures rel / MP_STRIDE == m && rel % MP_STRIDE == o <==> rel == m * MP_STRIDE + o
  {
    DivMod(rel, MP_STRIDE);
  }

  /**
   Decoding takes each word apart in exactly one way: the regions do not meet,
   and an added offset that would leave a region decodes to nothing.
   */
  lemma DecodeExactly(addr: Word, register2: nat)
    ensures forall o: nat :: DecodeVirtualAddr(addr, register2) == Frame(o) <==>
      0 < addr < MP_BASE && o == addr + register2 && o < MP_BASE
    ensures forall m: nat, o: nat :: DecodeVirtualAddr(addr, register2) == ModuleMp(m, o) <==>
      m < MAX_MODULES && register2 <= o < MP_STRIDE && addr == MP_BASE + m * MP_STRIDE + (o - register2)
    ensures forall id: HeapId, o: nat :: DecodeVirtualAddr(addr, register2) == HeapArray(id, o) <==>
      addr == id && id >= HEAP_ID_BASE && o == register2
    ensures DecodeVirtualAddr(addr, register2) != Immediate && !DecodeVirtualAddr(addr, register2).Mp?
  {
    forall m: nat, o: nat
      ensures DecodeVirtualAddr(addr, register2) == ModuleMp(m, o) <==>
        m < MAX_MODULES && register2 <= o < MP_STRIDE && addr == MP_BASE + m * MP_STRIDE + (o - register2)
    {
      if register2 <= o < MP_STRIDE && addr >= MP_BASE {
        ModuleAddress(addr - MP_BASE, m, o - register2);
      }
    }
  }

  /** The same location, `dist` bytes on, or nothing when that is in another region. */
  function Shifted(target: AddrTarget, dist: nat): AddrTarget {
    match target
    case Frame(o) => if o + dist < MP_BASE then Frame(o + dist) else NoTarget
    case ModuleMp(m, o) => if o + dist < MP_STRIDE then ModuleMp(m, o + dist) else NoTarget
    case HeapArray(id, o) => HeapArray(id, o + dist)
    case _ => target
  }

  /** A target as an address names it: the current module's data by its index. */
  function Canonical(target: AddrTarget, currentModule: nat): AddrTarget {
    match target
    case Mp(o) => ModuleMp(currentModule, o)
    case _ => target
  }

  /** Byte locations `lea` can take the address of: a frame address is never 0 (a frame's data follows its header). */
  predicate Addressable(target: AddrTarget, currentModule: nat, heapRefs: HeapRefs) {
    match Canonical(target, currentModule)
    case Frame(o) => 0 < o < MP_BASE
    case ModuleMp(m, o) => m < MAX_MODULES && o < MP_STRIDE
    case HeapArray(_, _) => |heapRefs| < 0x8000_0000
    case _ => false
  }

  lemma ModuleRoundTrip(m: nat, o: nat, register2: nat)
    requires m < MAX_MODULES && o < MP_STRIDE
    ensures EncodeMpAddr(m, o).Ok? && EncodeMpAddr(m, o).value > 0
    ensures DecodeVirtualAddr(EncodeMpAddr(m, o).value, register2) == Shifted(ModuleMp(m, o), register2)
  {
    ModuleAddress(m * MP_STRIDE + o, m, o);
  }

  lemma FrameRoundTrip(o: nat, heapRefs: HeapRefs, register2: nat)
    requires 0 < o < MP_BASE
    ensures Frames.AsWord(o) == o && Indirect(o, register2, heapRefs) == Shifted(Frame(o), register2)
  {
  }

  lemma HeapRefRoundTrip(id: HeapId, o: nat, heapRefs: HeapRefs, register2: nat)
    requires |heapRefs| < 0x8000_0000
    ensures var w := Frames.AsWord(0x8000_0000 + |heapRefs| % 0x8000_0000);
      Indirect(w, register2, heapRefs + [(id, o)]) == HeapArray(id, o + register2)
  {
    var w := Frames.AsWord(0x8000_0000 + |heapRefs| % 0x8000_0000);
    assert w < 0 && RefIndex(w) == |heapRefs|;
  }

  /** Following an address that `lea` made reaches the location it was made from, plus the offset. */
  lemma LeaRoundTrip(target: AddrTarget, currentModule: nat, heapRefs: HeapRefs, imm: Word, register2: nat)
    requires Addressable(target, currentModule, heapRefs)
    ensures Lea(target, currentModule, heapRefs, imm).Ok?
    ensures var (w, refs) := Lea(target, currentModule, heapRefs, imm).value;
      Indirect(w, register2, refs) == Shifted(Canonical(target, currentModule), register2)
  {
    match Canonical(target, currentModule) {
      case Frame(o) => FrameRoundTrip(o, heapRefs, register2);
      case ModuleMp(m, o) => ModuleRoundTrip(m, o, register2);
      case HeapArray(id, o) => HeapRefRoundTrip(id, o, heapRefs, register2);
    }
  }

  /**
   What `lea` stores for each target: a frame offset itself, a module's byte by
   its place in that module's region if it has one, the flagged index of a new
   table entry for a heap element, an immediate's own value, and nil for nothing.
   */
  lemma LeaExactly(target: AddrTarget, currentModule: nat, refs: HeapRefs, imm: Word)
    ensures var r := Lea(target, currentModule, refs, imm);
      match target
      case Frame(o) => o < 0x8000_0000 ==> r == Ok((o, refs))
      case Mp(o) => ModuleWord(r, currentModule, o, refs)
      case ModuleMp(m, o) => ModuleWord(r, m, o, refs)
      case HeapArray(id, o) =>
        |refs| < 0x8000_0000 ==> r == Ok((|refs| - 0x8000_0000, refs + [(id, o)]))
      case Immediate => r == Ok((imm, refs))
      case NoTarget => r == Ok((0, refs))
    ensures forall o: nat :: target == Mp(o) ==>
      (Addressable(target, currentModule, refs) <==> currentModule < 128 && o < 0x10_0000)
  {
  }

  ghost predicate ModuleWord(r: Result<(Word, HeapRefs)>, m: nat, o: nat, refs: HeapRefs) {
    if m < 128 && o < 0x10_0000 then r == Ok((0x80_0000 + m * 0x10_0000 + o, refs)) else r == Error
  }

  /** The heap references after entries were added by later `lea` and `indx` instructions. */
  predicate Extends(later: HeapRefs, refs: HeapRefs) {
    |refs| <= |later| && later[..|refs|] == refs
  }

  /** An address leads back whatever entries are added to the heap references after it was made. */
  lemma LeaStaysValid(target: AddrTarget, currentModule: nat, heapRefs: HeapRefs, imm: Word, later: HeapRefs,
                      register2: nat)
    requires Addressable(target, currentModule, heapRefs)
    requires Extends(later, Lea(target, currentModule, heapRefs, imm).value.1)
    ensures Indirect(Lea(target, currentModule, heapRefs, imm).value.0, register2, later) ==
      Shifted(Canonical(target, currentModule), register2)
  {
    LeaRoundTrip(target, currentModule, heapRefs, imm, register2);
    if target.HeapArray? {
      assert later[|heapRefs|] == later[..|heapRefs| + 1][|heapRefs|];
    }
  }

  /**
   Two addresses made one after the other, with any entries added between, are
   distinct words if they name distinct locations.
   */
  lemma LeaInjective(a: AddrTarget, b: AddrTarget, currentModule: nat, refs: HeapRefs, imm: Word, later: HeapRefs)
    requires Addressable(a, currentModule, refs) && Extends(later, Lea(a, currentModule, refs, imm).value.1)
    requires Addressable(b, currentModule, later)
    requires Lea(a, currentModule, refs, imm).value.0 == Lea(b, currentModule, later, imm).value.0
    ensures Canonical(a, currentModule) == Canonical(b, currentModule)
  {
    var last := Lea(b, currentModule, later, imm).value.1;
    assert Extends(last, later);
    LeaStaysValid(a, currentModule, refs, imm, last, 0);
    LeaRoundTrip(b, currentModule, later, imm, 0);
  }

  /** An address stored in a frame slot leads back through a double-indirect operand. */
  lemma LeaThroughFrame(target: AddrTarget, currentModule: nat, heapRefs: HeapRefs, imm: Word,
                        stack: Buffer, mp: Buffer, fpBase: nat, register1: Word, register2: Word)
    requires Addressable(target, currentModule, heapRefs) && register1 >= 0 && register2 >= 0
    requires fpBase + register1 < MP_BASE && Fits(stack, fpBase + register1, 4)
    ensures var (w, refs) := Lea(target, currentModule, heapRefs, imm).value;
      ResolveOperand(Operand(OffsetDoubleIndirectFp, register1, register2), fpBase,
                     WriteWord(stack, fpBase + register1, w), mp, refs)
      == Ok(Shifted(Canonical(target, currentModule), register2))
  {
    LeaRoundTrip(target, currentModule, heapRefs, imm, register2);
    var (w, refs) := Lea(target, currentModule, heapRefs, imm).value;
    WordRoundTrip(stack, fpBase + register1, w);
  }

  /**
   Through a slot of module data it leads back if and only if it is not the
   address of a frame byte still in the frame region: those are taken as
   offsets into the module's own data.
   */
  lemma LeaThroughMp(target: AddrTarget, currentModule: nat, heapRefs: HeapRefs, imm: Word,
                     stack: Buffer, mp: Buffer, fpBase: nat, register1: Word, register2: Word)
    requires Addressable(target, currentModule, heapRefs) && register1 >= 0 && register2 >= 0
    requires Fits(mp, register1, 4)
    ensures var (w, refs) := Lea(target, currentModule, heapRefs, imm).value;
      ResolveOperand(Operand(OffsetDoubleIndirectMp, register1, register2), fpBase,
                     stack, WriteWord(mp, register1, w), refs)
      == Ok(Shifted(Canonical(target, currentModule), register2))
      <==> !(target.Frame? && target.offset + register2 < MP_BASE)
  {
    LeaRoundTrip(target, currentModule, heapRefs, imm, register2);
    var (w, refs) := Lea(target, currentModule, heapRefs, imm).value;
    WordRoundTrip(mp, register1, w);
  }

  /**
   Such a case: the address of frame byte 16, kept at the start of the module
   data, leads to the data's own byte 16.
   */
  lemma FrameAddressLost(stack: Buffer, refs: HeapRefs)
    ensures var w := Lea(Frame(16), 0, refs, 0).value.0;
      ResolveOperand(Operand(OffsetDoubleIndirectMp, 0, 0), 0, stack, WriteWord(Zeros(32), 0, w), refs) == Ok(Mp(16))
  {
    var w: Word := 16;
    assert Lea(Frame(16), 0, refs, 0).value.0 == w;
    WordRoundTrip(Zeros(32), 0, w);
    assert Indirect(w, 0, refs) == Frame(16);
  }

  /**
   Operands are refused exactly for a reserved mode, a negative register used as
   an offset, or a frame offset out of range.
   */
  lemma RefusedExactly(op: Operand, fpBase: nat, stack: Buffer, mp: Buffer, heapRefs: HeapRefs)
    ensures ResolveOperand(op, fpBase, stack, mp, heapRefs) == Error <==>
      || op.mode.Reserved?
      || (!op.mode.ImmediateMode? && !op.mode.NoMode? && op.register1 < 0)
      || ((op.mode.OffsetIndirectFp? || op.mode.OffsetDoubleIndirectFp?) && fpBase + op.register1 >= MP_BASE)
      || ((op.mode.OffsetDoubleIndirectFp? || op.mode.OffsetDoubleIndirectMp?) && op.register2 < 0)
    ensures forall o: nat :: ResolveOperand(op, fpBase, stack, mp, heapRefs) == Ok(Frame(o)) ==> o < MP_BASE
  {
  }

  /**
   Where a word leads: nil nowhere, a flagged word to its table entry if there is
   one, any other where it decodes to.
   */
  lemma IndirectExactly(w: Word, register2: nat, heapRefs: HeapRefs)
    ensures w == 0 ==> Indirect(w, register2, heapRefs).NoTarget?
    ensures w > 0 ==> Indirect(w, register2, heapRefs) == DecodeVirtualAddr(w, register2)
    ensures w < 0 && w + 0x8000_0000 < |heapRefs| ==>
      var (id, start) := heapRefs[w + 0x8000_0000];
      Indirect(w, register2, heapRefs) == HeapArray(id, start + register2)
    ensures w < 0 && w + 0x8000_0000 >= |heapRefs| ==> Indirect(w, register2, heapRefs).NoTarget?
  {
  }

  /** What an accepted operand names. */
  lemma ResolveExactly(op: Operand, fpBase: nat, stack: Buffer, mp: Buffer, heapRefs: HeapRefs)
    requires ResolveOperand(op, fpBase, stack, mp, heapRefs).Ok?
    ensures var target := ResolveOperand(op, fpBase, stack, mp, heapRefs).value;
      && (op.mode.OffsetIndirectFp? ==> target == Frame(fpBase + op.register1))
      && (op.mode.OffsetIndirectMp? ==> target == Mp(op.register1))
      && (op.mode.ImmediateMode? ==> target == Immediate)
      && (op.mode.NoMode? ==> target == NoTarget)
      && (op.mode.OffsetDoubleIndirectFp? ==>
            target == Indirect(ReadWord(stack, fpBase + op.register1), op.register2, heapRefs))
      && (op.mode.OffsetDoubleIndirectMp? ==>
            var through := Indirect(ReadWord(mp, op.register1), op.register2, heapRefs);
            if through.Frame? then target == Mp(through.offset) else target == through)
  {
  }

  /** Every data byte of a frame the stack hands out is addressable, so its address leads back to it. */
  lemma FrameBytesAddressable(img: FrameImage, size: nat, offset: nat, addr: nat, currentModule: nat,
                              heapRefs: HeapRefs)
    requires Frames.WithPending(img, size).Ok? && Frames.WithPending(img, size).value.1 == offset
    requires offset <= addr < offset + size
    ensures Addressable(Frame(addr), currentModule, heapRefs)
    ensures DecodeVirtualAddr(Frames.AsWord(addr), 0) == Frame(addr)
  {
    LeaRoundTrip(Frame(addr), currentModule, heapRefs, 0, 0);
  }
}
