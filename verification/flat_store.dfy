/**
 Reads and writes through resolved targets (vm.rs): the frame stack, the module
 data of whichever module owns it now, and heap objects through any number of
 array slices, all seen as one store of bytes.
 */
module FlatStores {
  import opened Memory
  import opened Heaps
  import opened Addresses

  /** `callers` holds module data swapped out by cross-module calls, innermost last. */
  datatype Store = Store(
    frame: Buffer,
    mp: Buffer,
    currentLoaded: Option<nat>,
    callers: seq<(nat, Buffer)>,
    loaded: seq<Buffer>,
    objects: Objects)

  function CurrentModule(currentLoaded: Option<nat>): nat {
    match currentLoaded
    case None => 0
    case Some(idx) => idx + 1
  }

  // --- The store as regions of bytes ---

  datatype Region = FrameData | CurrentMp | CallerMp(i: nat) | LoadedMp(i: nat) | HeapBytes(id: HeapId)

  datatype Location = Location(region: Region, offset: nat)

  /** The innermost caller entry for a module, or the number of entries when there is none. */
  function LastCaller(callers: seq<(nat, Buffer)>, module_: nat): (i: nat)
    ensures i <= |callers|
    ensures i < |callers| ==> callers[i].0 == module_ && forall k :: i < k < |callers| ==> callers[k].0 != module_
    ensures i == |callers| ==> forall k :: 0 <= k < |callers| ==> callers[k].0 != module_
  {
    if callers == [] then 0
    else if callers[|callers| - 1].0 == module_ then |callers| - 1
    else
      var i := LastCaller(callers[..|callers| - 1], module_);
      if i == |callers| - 1 then |callers| else i
  }

  function ModuleRegion(s: Store, module_: nat): Option<Region> {
    var i := LastCaller(s.callers, module_);
    if module_ == CurrentModule(s.currentLoaded) then Some(CurrentMp)
    else if i < |s.callers| then Some(CallerMp(i))
    else if 1 <= module_ <= |s.loaded| then Some(LoadedMp(module_ - 1))
    else None
  }

  /** A caller's entry for the module, with no later one for it. */
  predicate Innermost(callers: seq<(nat, Buffer)>, module_: nat, i: nat) {
    i < |callers| && callers[i].0 == module_ && forall k :: i < k < |callers| ==> callers[k].0 != module_
  }

  /**
   The running module's data is looked for first, then the innermost caller's,
   then the loaded modules', which are numbered from one.
   */
  lemma ModuleRegionExactly(s: Store, module_: nat)
    ensures (match s.currentLoaded case None => module_ == 0 case Some(idx) => module_ == idx + 1) <==>
      ModuleRegion(s, module_) == Some(CurrentMp)
    ensures forall i: nat :: ModuleRegion(s, module_) == Some(CallerMp(i)) <==>
      ModuleRegion(s, module_) != Some(CurrentMp) && Innermost(s.callers, module_, i)
    ensures forall i: nat :: ModuleRegion(s, module_) == Some(LoadedMp(i)) <==>
      && ModuleRegion(s, module_) != Some(CurrentMp) && (forall k :: 0 <= k < |s.callers| ==> s.callers[k].0 != module_)
      && module_ == i + 1 && i < |s.loaded|
    ensures forall r :: ModuleRegion(s, module_) == Some(r) ==> r == CurrentMp || r.CallerMp? || r.LoadedMp?
  {
  }

  predicate HasBytes(objs: Objects, id: HeapId) {
    Live(objs, id) && (objs[id].data.Array? || objs[id].data.Record? || objs[id].data.Adt?)
  }

  predicate Exists(s: Store, r: Region) {
    match r
    case FrameData => true
    case CurrentMp => true
    case CallerMp(i) => i < |s.callers|
    case LoadedMp(i) => i < |s.loaded|
    case HeapBytes(id) => HasBytes(s.objects, id)
  }

  /** The byte that a target names, or none. */
  function Locate(s: Store, target: AddrTarget): (r: Option<Location>)
    requires SlicesDescend(s.objects)
    ensures r.Some? ==> Exists(s, r.value.region)
  {
    match target
    case Frame(off) => Some(Location(FrameData, off))
    case Mp(off) => Some(Location(CurrentMp, off))
    case ModuleMp(m, off) =>
      (match ModuleRegion(s, m)
       case Some(r) => Some(Location(r, off))
       case None => None)
    case HeapArray(id, off) =>
      var (root, at) := Root(s.objects, id, off);
      if HasBytes(s.objects, root) then Some(Location(HeapBytes(root), at)) else None
    case Immediate => None
    case NoTarget => None
  }

  /** Which bytes each kind of target names. */
  lemma LocateExactly(s: Store, target: AddrTarget)
    requires SlicesDescend(s.objects)
    ensures match target
      case Frame(off) => Locate(s, target) == Some(Location(FrameData, off))
      case Mp(off) => Locate(s, target) == Some(Location(CurrentMp, off))
      case ModuleMp(m, off) =>
        forall l :: Locate(s, target) == Some(l) <==> ModuleRegion(s, m) == Some(l.region) && l.offset == off
      case HeapArray(id, off) =>
        forall l :: Locate(s, target) == Some(l) <==>
          && l.region == HeapBytes(Root(s.objects, id, off).0) && l.offset == Root(s.objects, id, off).1
          && HasBytes(s.objects, Root(s.objects, id, off).0)
      case Immediate => Locate(s, target).None?
      case NoTarget => Locate(s, target).None?
  {
  }

  function BytesOf(s: Store, r: Region): Buffer
    requires Exists(s, r)
  {
    match r
    case FrameData => s.frame
    case CurrentMp => s.mp
    case CallerMp(i) => s.callers[i].1
    case LoadedMp(i) => s.loaded[i]
    case HeapBytes(id) => s.objects[id].data.bytes
  }

  function WithBytes(s: Store, r: Region, bytes: Buffer): Store
    requires Exists(s, r)
  {
    match r
    case FrameData => s.(frame := bytes)
    case CurrentMp => s.(mp := bytes)
    case CallerMp(i) => s.(callers := s.callers[i := (s.callers[i].0, bytes)])
    case LoadedMp(i) => s.(loaded := s.loaded[i := bytes])
    case HeapBytes(id) => s.(objects := SetBytes(s.objects, id, bytes))
  }

  predicate InRange(s: Store, target: AddrTarget, n: nat)
    requires SlicesDescend(s.objects)
  {
    var l := Locate(s, target);
    l.Some? && Fits(BytesOf(s, l.value.region), l.value.offset, n)
  }

  function Load(s: Store, target: AddrTarget, n: nat): (r: Buffer)
    requires SlicesDescend(s.objects)
    ensures |r| == n
  {
    match Locate(s, target)
    case Some(l) => ReadBytes(BytesOf(s, l.region), l.offset, n)
    case None => Zeros(n)
  }

  function Stored(s: Store, target: AddrTarget, data: Buffer): Store
    requires SlicesDescend(s.objects)
  {
    match Locate(s, target)
    case Some(l) => WithBytes(s, l.region, Patch(BytesOf(s, l.region), l.offset, data))
    case None => s
  }

  // --- One flat store ---

  predicate Disjoint(a: Option<Location>, n: nat, b: Option<Location>, m: nat) {
    a.None? || b.None? || a.value.region != b.value.region
    || a.value.offset + n <= b.value.offset || b.value.offset + m <= a.value.offset
  }

  lemma {:induction false} RootKept(objs: Objects, after: Objects, id: HeapId, offset: nat)
    requires SlicesDescend(objs) && SlicesDescend(after)
    requires objs.Keys == after.Keys
    requires forall k :: k in objs && objs[k].data.ArraySlice? ==> after[k] == objs[k]
    requires forall k :: k in objs && after[k].data.ArraySlice? ==> after[k] == objs[k]
    ensures Root(after, id, offset) == Root(objs, id, offset)
    decreases id
  {
    if Live(objs, id) && objs[id].data.ArraySlice? {
      RootKept(objs, after, objs[id].data.parent, objs[id].data.byteStart + offset);
    }
  }

  /** Replacing a region's bytes moves nothing. */
  lemma LocateKept(s: Store, r: Region, bytes: Buffer, target: AddrTarget)
    requires SlicesDescend(s.objects) && Exists(s, r)
    ensures SlicesDescend(WithBytes(s, r, bytes).objects)
    ensures Locate(WithBytes(s, r, bytes), target) == Locate(s, target)
  {
    var after := WithBytes(s, r, bytes);
    match target {
      case HeapArray(id, off) => RootKept(s.objects, after.objects, id, off);
      case ModuleMp(m, _) =>
        var i, j := LastCaller(s.callers, m), LastCaller(after.callers, m);
        assert forall k :: 0 <= k < |s.callers| ==> after.callers[k].0 == s.callers[k].0;
        assert i == j;
      case _ =>
    }
  }

  lemma StoredMovesNothing(s: Store, target: AddrTarget, data: Buffer, other: AddrTarget)
    requires SlicesDescend(s.objects)
    ensures SlicesDescend(Stored(s, target, data).objects)
    ensures Locate(Stored(s, target, data), other) == Locate(s, other)
  {
    var l := Locate(s, target);
    if l.Some? {
      LocateKept(s, l.value.region, Patch(BytesOf(s, l.value.region), l.value.offset, data), other);
    }
  }

  /** What was written in range is read back, through any target that names the same place. */
  lemma LoadStored(s: Store, target: AddrTarget, data: Buffer, alias: AddrTarget)
    requires SlicesDescend(s.objects)
    requires InRange(s, target, |data|) && Locate(s, alias) == Locate(s, target)
    ensures SlicesDescend(Stored(s, target, data).objects)
    ensures Load(Stored(s, target, data), alias, |data|) == data
  {
    StoredMovesNothing(s, target, data, alias);
  }

  /** A write changes no cell it does not overlap, whatever target reads it. */
  lemma LoadElsewhere(s: Store, target: AddrTarget, data: Buffer, other: AddrTarget, n: nat)
    requires SlicesDescend(s.objects)
    requires Disjoint(Locate(s, target), |data|, Locate(s, other), n)
    ensures SlicesDescend(Stored(s, target, data).objects)
    ensures Load(Stored(s, target, data), other, n) == Load(s, other, n)
  {
    StoredMovesNothing(s, target, data, other);
    var a, b := Locate(s, target), Locate(s, other);
    if a.Some? && b.Some? {
      var before := BytesOf(s, a.value.region);
      OtherRegions(s, a.value.region, Patch(before, a.value.offset, data), b.value.region);
      if a.value.region == b.value.region {
        PatchElsewhere(before, a.value.offset, data, b.value.offset, n);
      }
    }
  }

  lemma OtherRegions(s: Store, r: Region, bytes: Buffer, other: Region)
    requires Exists(s, r) && Exists(s, other)
    ensures Exists(WithBytes(s, r, bytes), other)
    ensures BytesOf(WithBytes(s, r, bytes), other) == if other == r then bytes else BytesOf(s, other)
  {
  }

  lemma PatchElsewhere(buf: Buffer, at: nat, data: Buffer, other: nat, n: nat)
    requires at + |data| <= other || other + n <= at
    ensures ReadBytes(Patch(buf, at, data), other, n) == ReadBytes(buf, other, n)
  {
  }

  /** Out of range, a write changes nothing and a read gives zeros. */
  lemma OutOfRange(s: Store, target: AddrTarget, data: Buffer)
    requires SlicesDescend(s.objects) && !InRange(s, target, |data|)
    ensures Stored(s, target, data) == s
    ensures Load(s, target, |data|) == Zeros(|data|)
  {
    var l := Locate(s, target);
    if l.Some? {
      var bytes := BytesOf(s, l.value.region);
      assert Patch(bytes, l.value.offset, data) == bytes;
      assert WithBytes(s, l.value.region, bytes) == s;
    }
  }

  /** The bytes a chain of slices skips before its root. */
  function ChainStart(objs: Objects, id: HeapId): nat
    requires SlicesDescend(objs)
    decreases id
  {
    if Live(objs, id) && objs[id].data.ArraySlice?
    then objs[id].data.byteStart + ChainStart(objs, objs[id].data.parent)
    else 0
  }

  function ChainRoot(objs: Objects, id: HeapId): HeapId
    requires SlicesDescend(objs)
    decreases id
  {
    if Live(objs, id) && objs[id].data.ArraySlice? then ChainRoot(objs, objs[id].data.parent) else id
  }

  lemma {:induction false} RootIsSum(objs: Objects, id: HeapId, offset: nat)
    requires SlicesDescend(objs)
    ensures Root(objs, id, offset) == (ChainRoot(objs, id), ChainStart(objs, id) + offset)
    ensures Root(objs, ChainRoot(objs, id), offset) == (ChainRoot(objs, id), offset)
    decreases id
  {
    if Live(objs, id) && objs[id].data.ArraySlice? {
      RootIsSum(objs, objs[id].data.parent, objs[id].data.byteStart + offset);
      RootIsSum(objs, objs[id].data.parent, offset);
    }
  }

  /** A slice of slices is the root array at the sum of their starts, for reads and writes alike. */
  lemma SliceIsRootAtSum(s: Store, id: HeapId, offset: nat, n: nat, data: Buffer)
    requires SlicesDescend(s.objects)
    ensures var root := HeapArray(ChainRoot(s.objects, id), ChainStart(s.objects, id) + offset);
      && Load(s, HeapArray(id, offset), n) == Load(s, root, n)
      && Stored(s, HeapArray(id, offset), data) == Stored(s, root, data)
  {
    RootIsSum(s.objects, id, offset);
    RootIsSum(s.objects, id, ChainStart(s.objects, id) + offset);
  }

  /** The running module's data is one region, whether named directly or by its index. */
  lemma CurrentModuleAliases(s: Store, offset: nat)
    requires SlicesDescend(s.objects)
    ensures Locate(s, ModuleMp(CurrentModule(s.currentLoaded), offset)) == Locate(s, Mp(offset))
  {
  }

  /**
   `array_write` copies the part of the data that fits; a store through a
   target is all or nothing. They differ exactly when some of the data fits,
   not all of it does, and what fits would change the array.
   */
  lemma ClippedVersusStored(s: Store, id: HeapId, offset: nat, data: Buffer)
    requires SlicesDescend(s.objects) && HasBytes(s.objects, Root(s.objects, id, offset).0)
    requires s.objects[Root(s.objects, id, offset).0].data.Array?
    ensures var (root, at) := Root(s.objects, id, offset); var bytes := s.objects[root].data.bytes;
      ArrayWritten(s.objects, id, offset, data) == Stored(s, HeapArray(id, offset), data).objects <==>
        at >= |bytes| || at + |data| <= |bytes| || bytes[at..] == data[..|bytes| - at]
  {
    var (root, at) := Root(s.objects, id, offset);
    var bytes := s.objects[root].data.bytes;
    if at < |bytes| < at + |data| {
      var clipped := Clipped(bytes, at, data);
      assert clipped[at..] == data[..|bytes| - at];
      assert Patch(bytes, at, data) == bytes;
      if bytes[at..] == data[..|bytes| - at] {
        assert clipped == bytes;
      } else {
        assert ArrayWritten(s.objects, id, offset, data)[root].data.bytes !=
          Stored(s, HeapArray(id, offset), data).objects[root].data.bytes;
      }
    } else if at >= |bytes| {
      assert Clipped(bytes, at, data) == bytes && Patch(bytes, at, data) == bytes;
    } else {
      assert data[..|data|] == data;
      assert Clipped(bytes, at, data) == Patch(bytes, at, data);
    }
  }

  /** Such a case: two bytes written at the last byte of a one-byte array. */
  lemma ClippedDiffers() returns (s: Store)
    ensures SlicesDescend(s.objects) && s.objects.Keys == {HEAP_ID_BASE}
    ensures ArrayWritten(s.objects, HEAP_ID_BASE, 0, [1, 2])[HEAP_ID_BASE].data == Array(0, 1, [1], 1)
    ensures Stored(s, HeapArray(HEAP_ID_BASE, 0), [1, 2]) == s && s.objects[HEAP_ID_BASE].data == Array(0, 1, [0], 1)
  {
    var objs: Objects := map[HEAP_ID_BASE := HeapObject(1, 0, None, Array(0, 1, [0], 1))];
    s := Store([], [], None, [], [], objs);
    var data: Buffer := [1, 2];
    assert data[..1] == [1] && Patch([0], 0, [1]) == [1];
    OutOfRange(s, HeapArray(HEAP_ID_BASE, 0), [1, 2]);
  }

  // --- Typed access ---

  /** A typed read looks only at the bytes loaded. */
  lemma WordOfBytes(buf: Buffer, offset: nat)
    ensures ReadWord(ReadBytes(buf, offset, 4), 0) == ReadWord(buf, offset)
    ensures ReadWord(Zeros(4), 0) == 0
  {
    assert ReadBytes(buf, offset, 4)[0..4] == ReadBytes(buf, offset, 4);
    assert Zeros(4)[0..4] == [0, 0, 0, 0];
    assert Decode([0, 0, 0, 0]) == 0 by { ZerosDecode(4); assert Zeros(4) == [0, 0, 0, 0]; }
  }

  lemma BigOfBytes(buf: Buffer, offset: nat)
    ensures ReadBig(ReadBytes(buf, offset, 8), 0) == ReadBig(buf, offset)
    ensures ReadBig(Zeros(8), 0) == 0
  {
    assert ReadBytes(buf, offset, 8)[0..8] == ReadBytes(buf, offset, 8);
    assert Zeros(8)[0..8] == Zeros(8);
    ZerosDecode(8);
  }

  lemma {:induction false} ZerosDecode(n: nat)
    ensures Decode(Zeros(n)) == 0
  {
    if n > 0 {
      ZerosDecode(n - 1);
      assert Zeros(n)[1..] == Zeros(n - 1);
    }
  }

  function LoadWord(s: Store, target: AddrTarget, imm: Word): Word
    requires SlicesDescend(s.objects)
  {
    if target.Immediate? then imm else ReadWord(Load(s, target, 4), 0)
  }

  function LoadBig(s: Store, target: AddrTarget, imm: Word): Big
    requires SlicesDescend(s.objects)
  {
    if target.Immediate? then imm else ReadBig(Load(s, target, 8), 0)
  }

  function LoadByte(s: Store, target: AddrTarget, imm: Word): Byte
    requires SlicesDescend(s.objects)
  {
    if target.Immediate? then imm % 256 else Load(s, target, 1)[0]
  }

  /** A word, or a big, written in range is the one read back. */
  lemma TypedReadBack(s: Store, target: AddrTarget, alias: AddrTarget, imm: Word, w: Word, b: Big)
    requires SlicesDescend(s.objects) && !alias.Immediate? && Locate(s, alias) == Locate(s, target)
    ensures InRange(s, target, 4) ==>
      var after := Stored(s, target, WordBytes(w)); SlicesDescend(after.objects) && LoadWord(after, alias, imm) == w
    ensures InRange(s, target, 8) ==>
      var after := Stored(s, target, BigBytes(b)); SlicesDescend(after.objects) && LoadBig(after, alias, imm) == b
  {
    if InRange(s, target, 4) {
      LoadStored(s, target, WordBytes(w), alias);
      WordRoundTrip(Zeros(4), 0, w);
      assert WriteWord(Zeros(4), 0, w) == WordBytes(w);
    }
    if InRange(s, target, 8) {
      LoadStored(s, target, BigBytes(b), alias);
      BigRoundTrip(Zeros(8), 0, b);
      assert WriteBig(Zeros(8), 0, b) == BigBytes(b);
    }
  }

  /** The same for a byte. */
  lemma ByteReadBack(s: Store, target: AddrTarget, alias: AddrTarget, imm: Word, b: Byte)
    requires SlicesDescend(s.objects) && !alias.Immediate? && Locate(s, alias) == Locate(s, target)
    requires InRange(s, target, 1)
    ensures var after := Stored(s, target, [b]); SlicesDescend(after.objects) && LoadByte(after, alias, imm) == b
  {
    LoadStored(s, target, [b], alias);
  }

  /** An immediate operand reads as its own value, a byte of it as the least significant one. */
  lemma ImmediateReads(s: Store, imm: Word)
    requires SlicesDescend(s.objects)
    ensures LoadWord(s, Immediate, imm) == imm && LoadBig(s, Immediate, imm) == imm
    ensures exists high: int :: imm == 256 * high + LoadByte(s, Immediate, imm)
  {
    assert imm == 256 * (imm / 256) + LoadByte(s, Immediate, imm);
  }

  /** `heap_slice`: unlike `array_read` it also reads records, and other objects as zeros. */
  function HeapSlice(objs: Objects, id: HeapId, offset: nat, len: nat): (r: Option<Buffer>)
    requires SlicesDescend(objs)
    ensures r.Some? ==> |r.value| == len
    decreases id
  {
    if !Live(objs, id) then None
    else match objs[id].data
      case Array(_, _, bytes, _) => Some(ReadBytes(bytes, offset, len))
      case Record(bytes) => Some(ReadBytes(bytes, offset, len))
      case Adt(_, bytes) => Some(ReadBytes(bytes, offset, len))
      case ArraySlice(parent, byteStart, _, _, _) => HeapSlice(objs, parent, byteStart + offset, len)
      case _ => Some(Zeros(len))
  }

  lemma {:induction false} HeapSliceLoads(s: Store, id: HeapId, offset: nat, len: nat)
    requires SlicesDescend(s.objects)
    ensures Load(s, HeapArray(id, offset), len) ==
      match HeapSlice(s.objects, id, offset, len) case Some(b) => b case None => Zeros(len)
    decreases id
  {
    if Live(s.objects, id) && s.objects[id].data.ArraySlice? {
      HeapSliceLoads(s, s.objects[id].data.parent, s.objects[id].data.byteStart + offset, len);
    }
  }

  /** Where `array_read` answers at all, it answers as a load does. */
  lemma {:induction false} ArrayReadLoads(s: Store, id: HeapId, offset: nat, len: nat)
    requires SlicesDescend(s.objects)
    ensures ArrayRead(s.objects, id, offset, len) ==
      var (root, _) := Root(s.objects, id, offset);
      if Live(s.objects, root) && s.objects[root].data.Array? then Some(Load(s, HeapArray(id, offset), len)) else None
    decreases id
  {
    if Live(s.objects, id) && s.objects[id].data.ArraySlice? {
      ArrayReadLoads(s, s.objects[id].data.parent, s.objects[id].data.byteStart + offset, len);
    }
  }
}
