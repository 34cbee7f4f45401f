/** What one collection promises about the heap it leaves behind. */
module CollectorLaws {
  import opened Arith
  import opened Memory
  import opened TraceMaps
  import opened Heaps
  import opened Threads
  import opened Reachability

  /** Dropping objects from the heap drops exactly the scanned edges to them. */
  lemma EdgesShrink(o: HeapObject, objs: Objects, fewer: Objects)
    requires fewer.Keys <= objs.Keys
    ensures Ids(Edges(o, fewer)) <= Ids(Edges(o, objs))
    ensures forall x :: x in Ids(Edges(o, objs)) && (Live(fewer, x) || !Live(objs, x)) ==> x in Ids(Edges(o, fewer))
  {
    match o.data
    case Record(bytes) => BufferShrink(o.trace, bytes, objs, fewer);
    case Array(_, _, bytes, _) => BufferShrink(o.trace, bytes, objs, fewer);
    case Adt(_, bytes) => BufferShrink(o.trace, bytes, objs, fewer);
    case List(head, _) => BufferShrink(None, head, objs, fewer);
    case Channel(_, pending) =>
      if pending.Some? {
        BufferShrink(None, pending.value, objs, fewer);
      }
    case _ =>
  }

  lemma BufferShrink(trace: Option<TraceMap>, bytes: Buffer, objs: Objects, fewer: Objects)
    requires fewer.Keys <= objs.Keys
    ensures forall x :: x in BufferIds(trace, bytes, fewer) <==> x in BufferIds(trace, bytes, objs) && Live(fewer, x)
    ensures forall x :: x in BufferIds(trace, bytes, objs) ==> Live(objs, x)
  {
    match trace
    case None =>
      ScanIdsMembers(bytes, objs, 0);
      ScanIdsMembers(bytes, fewer, 0);
    case Some(m) =>
      MappedIdsMembers(bytes, PointerOffsets(m, |bytes|), objs);
      MappedIdsMembers(bytes, PointerOffsets(m, |bytes|), fewer);
  }

  /**
   No survivor loses a traced edge: whatever it refers to, if that was alive, is
   still there with the same contents.
   */
  lemma SurvivorEdgesIntact(objs: Objects, roots: set<HeapId>, id: HeapId, next: HeapId)
    requires id in Survivors(objs, roots) && next in Succ(objs, id) && Live(objs, next)
    ensures next in Survivors(objs, roots) && Survivors(objs, roots)[next] == objs[next]
    ensures next in Succ(Survivors(objs, roots), id)
  {
    var left := Survivors(objs, roots);
    StepReachable(objs, roots, id, next);
    EdgesShrink(objs[id], objs, left);
  }

  /** Among reachable objects a collection changes no edge. */
  lemma SuccUnchanged(objs: Objects, roots: set<HeapId>, id: HeapId)
    requires Reachable(objs, roots, id)
    ensures Succ(Survivors(objs, roots), id) == Succ(objs, id)
  {
    var left := Survivors(objs, roots);
    if Live(objs, id) {
      EdgesShrink(objs[id], objs, left);
      forall next | next in Succ(objs, id) ensures next in Succ(left, id) {
        StepReachable(objs, roots, id, next);
      }
    }
  }

  lemma {:induction false} PathSurvives(objs: Objects, roots: set<HeapId>, p: seq<HeapId>)
    requires IsPath(objs, p) && p[0] in roots
    ensures IsPath(Survivors(objs, roots), p)
  {
    if |p| > 1 {
      var q := p[..|p| - 1];
      PathSurvives(objs, roots, q);
      assert PathTo(objs, roots, q, p[|p| - 2]);
      SuccUnchanged(objs, roots, p[|p| - 2]);
      PathExtends(Survivors(objs, roots), q, p[|p| - 1]);
      assert q + [p[|p| - 1]] == p;
    }
  }

  /** The roots themselves all survive, so a second scan finds the same ones. */
  lemma RootsUnchanged(objs: Objects, r: Roots)
    ensures AllRoots(r, Survivors(objs, AllRoots(r, objs))) == AllRoots(r, objs)
  {
    var all := AllRoots(r, objs);
    var left := Survivors(objs, all);
    ThreadRootsUnchanged(objs, all, r.frames, r.mp, r.callerMps, r.heapRefs);
    BuffersUnchanged(objs, all, r.loadedMps);
    SuspendedUnchanged(objs, all, r.suspended);
  }

  lemma BufferUnchanged(objs: Objects, all: set<HeapId>, buf: Buffer)
    requires BufferRoots(buf, objs) <= all
    ensures BufferRoots(buf, Survivors(objs, all)) == BufferRoots(buf, objs)
  {
    forall id | id in BufferRoots(buf, objs) ensures id in BufferRoots(buf, Survivors(objs, all)) {
      RootReachable(objs, all, id);
    }
  }

  lemma BuffersUnchanged(objs: Objects, all: set<HeapId>, bufs: seq<(nat, Buffer)>)
    requires BuffersRoots(bufs, objs) <= all
    ensures BuffersRoots(bufs, Survivors(objs, all)) == BuffersRoots(bufs, objs)
  {
    var left := Survivors(objs, all);
    forall i | 0 <= i < |bufs| ensures BufferRoots(bufs[i].1, left) == BufferRoots(bufs[i].1, objs) {
      assert BufferRoots(bufs[i].1, objs) <= BuffersRoots(bufs, objs);
      BufferUnchanged(objs, all, bufs[i].1);
    }
    forall id | id in BuffersRoots(bufs, objs) ensures id in BuffersRoots(bufs, left) {
      var i :| 0 <= i < |bufs| && id in BufferRoots(bufs[i].1, objs);
      assert id in BufferRoots(bufs[i].1, left);
    }
    forall id | id in BuffersRoots(bufs, left) ensures id in BuffersRoots(bufs, objs) {
      var i :| 0 <= i < |bufs| && id in BufferRoots(bufs[i].1, left);
      assert id in BufferRoots(bufs[i].1, objs);
    }
  }

  lemma ThreadRootsUnchanged(objs: Objects, all: set<HeapId>, frames: Buffer, mp: Buffer,
                             callerMps: seq<(nat, Buffer)>, refs: seq<(HeapId, nat)>)
    requires ThreadRoots(frames, mp, callerMps, refs, objs) <= all
    ensures ThreadRoots(frames, mp, callerMps, refs, Survivors(objs, all)) ==
      ThreadRoots(frames, mp, callerMps, refs, objs)
  {
    BufferUnchanged(objs, all, frames);
    BufferUnchanged(objs, all, mp);
    BuffersUnchanged(objs, all, callerMps);
  }

  lemma {:induction false} SuspendedUnchanged(objs: Objects, all: set<HeapId>, ts: seq<SuspendedThread>)
    requires SuspendedRoots(ts, objs) <= all
    ensures SuspendedRoots(ts, Survivors(objs, all)) == SuspendedRoots(ts, objs)
  {
    if ts != [] {
      SuspendedUnchanged(objs, all, ts[..|ts| - 1]);
      var t := ts[|ts| - 1];
      ThreadRootsUnchanged(objs, all, t.frames.data, t.mp, t.callerMpStack, t.heapRefs);
    }
  }

  /** A second collection from the same roots frees nothing. */
  lemma SecondPassFreesNothing(objs: Objects, r: Roots)
    ensures var left := Survivors(objs, AllRoots(r, objs));
      Survivors(left, AllRoots(r, left)) == left
  {
    var all := AllRoots(r, objs);
    var left := Survivors(objs, all);
    RootsUnchanged(objs, r);
    forall id | id in left && Reachable(objs, all, id) ensures Reachable(left, all, id) {
      var p :| PathTo(objs, all, p, id);
      PathSurvives(objs, all, p);
      assert PathTo(left, all, p, id);
    }
  }

  /** The same heap with every pointer map forgotten. */
  function Untyped(objs: Objects): Objects {
    map id | id in objs :: objs[id].(trace := None)
  }

  /** The one condition under which a mapped scan visits only words the conservative scan visits too. */
  ghost predicate AlignedObject(o: HeapObject) {
    match o.trace
    case None => true
    case Some(m) =>
      match o.data
      case Record(bytes) => WellFormed(m) && AlignedIn(m, |bytes|)
      case Array(_, _, bytes, _) => WellFormed(m) && AlignedIn(m, |bytes|)
      case Adt(_, bytes) => WellFormed(m) && AlignedIn(m, |bytes|)
      case _ => true
  }

  ghost predicate AlignedObjects(objs: Objects) {
    forall id :: id in objs ==> AlignedObject(objs[id])
  }

  lemma MappedWithinScan(m: TraceMap, bytes: Buffer, objs: Objects, id: HeapId)
    requires WellFormed(m) && AlignedIn(m, |bytes|) && id in BufferIds(Some(m), bytes, objs)
    ensures id in ScanIds(bytes, objs, 0)
  {
    MappedIdsMembers(bytes, PointerOffsets(m, |bytes|), objs);
    ScanIdsMembers(bytes, objs, 0);
    var at :| at in PointerOffsets(m, |bytes|) && WordId(ReadWord(bytes, at)) == id;
    MemberAligned(m, |bytes|, at);
    assert WordAt(bytes, at, id);
  }

  lemma PreciseEdges(objs: Objects, id: HeapId)
    requires AlignedObjects(objs)
    ensures Succ(objs, id) <= Succ(Untyped(objs), id)
  {
    if Live(objs, id) {
      var o, bare := objs[id], Untyped(objs);
      var u := o.(trace := None);
      forall x | x in Succ(objs, id) ensures x in Succ(bare, id) {
        EdgesShrink(u, objs, bare);
        EdgesShrink(u, bare, objs);
        if o.trace.Some? && (o.data.Record? || o.data.Array? || o.data.Adt?) {
          MappedWithinScan(o.trace.value, o.data.bytes, objs, x);
        }
        assert x in Ids(Edges(u, objs));
        assert Live(bare, x) || !Live(objs, x);
      }
    }
  }

  lemma PreciseReach(objs: Objects, roots: set<HeapId>, id: HeapId)
    requires AlignedObjects(objs) && Reachable(objs, roots, id)
    ensures Reachable(Untyped(objs), roots, id)
  {
    var bare := Untyped(objs);
    var p :| PathTo(objs, roots, p, id);
    forall i | 0 < i < |p| ensures p[i] in Succ(bare, p[i - 1]) {
      PreciseEdges(objs, p[i - 1]);
    }
    assert PathTo(bare, roots, p, id);
  }

  /**
   The precise collection refines the conservative one: when maps visit aligned
   words only, what survives it would also survive with all maps gone.
   */
  lemma PreciseRefinesConservative(objs: Objects, r: Roots, id: HeapId)
    requires AlignedObjects(objs)
    requires id in Survivors(objs, AllRoots(r, objs))
    ensures id in Survivors(Untyped(objs), AllRoots(r, Untyped(objs)))
  {
    SameRoots(objs, Untyped(objs), r);
    if !IsPermanent(objs[id].data) {
      PreciseReach(objs, AllRoots(r, objs), id);
    }
  }

  /** Everything the precise collection keeps, the conservative one keeps too. */
  ghost predicate Refines(objs: Objects) {
    forall roots: set<HeapId> :: Survivors(objs, roots).Keys <= Survivors(Untyped(objs), roots).Keys
  }

  ghost predicate UsesOnly(objs: Objects, m: TraceMap) {
    forall id :: id in objs && objs[id].trace.Some? ==> objs[id].trace.value == m
  }

  /** The largest array that `newa` makes; it raises an exception when asked for more. */
  const MAX_ARRAY_BYTES: nat := 64 * 1024 * 1024

  /** Typed objects as `new` and `newa` make them: a record of one stride, or an array of whole ones. */
  predicate AsAllocated(o: HeapObject) {
    match o.trace
    case None => true
    case Some(m) =>
      match o.data
      case Record(bytes) => |bytes| == m.stride
      case Array(_, elemSize, bytes, length) =>
        elemSize == m.stride && |bytes| == length * elemSize && |bytes| <= MAX_ARRAY_BYTES
      case _ => false
  }

  ghost predicate Allocated(objs: Objects) {
    forall id :: id in objs ==> AsAllocated(objs[id])
  }

  /** An array of at least two elements of this type can be allocated, and its second one is misaligned. */
  predicate CanStraddle(m: TraceMap) {
    m.stride % 4 != 0 && m.offsets != [] && 2 * m.stride <= MAX_ARRAY_BYTES
  }

  /** Where two elements are too many, every buffer ends with the first. */
  lemma AllocatedAligned(m: TraceMap, o: HeapObject)
    requires WellFormed(m) && !CanStraddle(m)
    requires AsAllocated(o) && (o.trace.Some? ==> o.trace.value == m)
    ensures AlignedObject(o)
  {
    if o.trace.Some? && o.data.Array? && o.data.length > 1 {
      MulLess(1, o.data.length, m.stride);
    }
  }

  /**
   The condition is exact: the mapped collection refines the conservative one on
   every heap of objects that the program can allocate with this map, if and only
   if no array of them can put a pointer across a word boundary.
   */
  lemma RefinementExactly(m: TraceMap)
    requires WellFormed(m)
    ensures m.stride % 4 == 0 || m.offsets == [] || 2 * m.stride > MAX_ARRAY_BYTES <==>
      forall objs: Objects :: UsesOnly(objs, m) && Allocated(objs) ==> Refines(objs)
  {
    if CanStraddle(m) {
      var objs := StraddlingHeap(m);
      assert UsesOnly(objs, m) && Allocated(objs) && !Refines(objs);
    } else {
      forall objs: Objects | UsesOnly(objs, m) && Allocated(objs) ensures Refines(objs) {
        AllocatedRefines(m, objs);
      }
    }
  }

  lemma AllocatedRefines(m: TraceMap, objs: Objects)
    requires WellFormed(m) && !CanStraddle(m) && UsesOnly(objs, m) && Allocated(objs)
    ensures Refines(objs)
  {
    forall id | id in objs ensures AlignedObject(objs[id]) {
      AllocatedAligned(m, objs[id]);
    }
    forall roots: set<HeapId>, id | id in Survivors(objs, roots) ensures id in Survivors(Untyped(objs), roots) {
      if !IsPermanent(objs[id].data) {
        PreciseReach(objs, roots, id);
      }
    }
  }

  const HELD: HeapId := 0x1000_0001
  const HOLDER: HeapId := 0x1000_0002

  /** A two-element array whose second element points to `HELD` across a word boundary. */
  function Straddling(m: TraceMap): Buffer
    requires m.offsets != []
  {
    WriteWord(Zeros(2 * m.stride), m.stride + m.offsets[0], HELD)
  }

  lemma DecodeEnds(bytes: Buffer)
    requires |bytes| == 4
    ensures bytes[0] == 0 ==> Decode(bytes) % 256 == 0
    ensures bytes[3] == 0 ==> Decode(bytes) < 0x100_0000
  {
    assert Decode(bytes) == bytes[0] + 256 * Decode(bytes[1..]);
    assert Decode(bytes[1..]) == bytes[1] + 256 * Decode(bytes[2..]) by { assert bytes[1..][1..] == bytes[2..]; }
    assert Decode(bytes[2..]) == bytes[2] + 256 * Decode(bytes[3..]) by { assert bytes[2..][1..] == bytes[3..]; }
    assert Decode(bytes[3..]) == bytes[3] + 256 * Decode([]) by { assert bytes[3..][1..] == []; }
  }

  lemma StraddlingWord(m: TraceMap) returns (x: nat)
    requires WellFormed(m) && CanStraddle(m)
    ensures x == m.stride + m.offsets[0] && x in PointerOffsets(m, 2 * m.stride)
    ensures x % 4 != 0 && x + 4 <= 2 * m.stride
  {
    assert m.offsets[0] in m.offsets;
    x := SecondElementWord(m, 2 * m.stride);
  }

  /** No aligned word of the straddling buffer reads as the held id. */
  lemma AlignedWordDiffers(m: TraceMap, at: nat)
    requires WellFormed(m) && CanStraddle(m)
    requires at % 4 == 0 && Fits(Straddling(m), at, 4)
    ensures WordId(ReadWord(Straddling(m), at)) != HELD
  {
    var word := Straddling(m)[at..at + 4];
    DecodeEnds(word);
    SpanValues();
    var x := StraddlingWord(m);
    if at < x {
      assert word[0] == 0;
    } else {
      assert word[3] == 0;
    }
  }

  lemma StraddlingHidden(m: TraceMap, objs: Objects)
    requires WellFormed(m) && CanStraddle(m)
    ensures HELD !in ScanIds(Straddling(m), objs, 0)
  {
    ScanIdsMembers(Straddling(m), objs, 0);
    forall at: nat | at % 4 == 0 && Fits(Straddling(m), at, 4) ensures WordId(ReadWord(Straddling(m), at)) != HELD {
      AlignedWordDiffers(m, at);
    }
  }

  lemma StraddlingFound(m: TraceMap, objs: Objects)
    requires WellFormed(m) && CanStraddle(m) && HELD in objs
    ensures HELD in BufferIds(Some(m), Straddling(m), objs)
  {
    var x := StraddlingWord(m);
    WordRoundTrip(Zeros(2 * m.stride), x, HELD);
    MappedIdsMembers(Straddling(m), PointerOffsets(m, 2 * m.stride), objs);
  }

  lemma StraddlingHeap(m: TraceMap) returns (objs: Objects)
    requires WellFormed(m) && CanStraddle(m)
    ensures UsesOnly(objs, m) && Allocated(objs) && !Refines(objs)
  {
    objs := map[
      HELD := HeapObject(1, 0, None, Str("")),
      HOLDER := HeapObject(1, 0, Some(m), Array(0, m.stride, Straddling(m), 2))];
    HeldPrecisely(m, objs);
    LostConservatively(m, Untyped(objs));
  }

  predicate Straddles(m: TraceMap, objs: Objects, trace: Option<TraceMap>)
    requires m.offsets != []
  {
    objs == map[
      HELD := HeapObject(1, 0, None, Str("")),
      HOLDER := HeapObject(1, 0, trace, Array(0, m.stride, Straddling(m), 2))]
  }

  lemma HeldPrecisely(m: TraceMap, objs: Objects)
    requires WellFormed(m) && CanStraddle(m) && Straddles(m, objs, Some(m))
    ensures HELD in Survivors(objs, {HOLDER})
  {
    RootReachable(objs, {HOLDER}, HOLDER);
    StraddlingFound(m, objs);
    StepReachable(objs, {HOLDER}, HOLDER, HELD);
  }

  lemma LostConservatively(m: TraceMap, objs: Objects)
    requires WellFormed(m) && CanStraddle(m) && Straddles(m, objs, None)
    ensures HELD !in Survivors(objs, {HOLDER})
  {
    StraddlingHidden(m, objs);
    ScanIdsMembers(Straddling(m), objs, 0);
    assert ClosedUnder(objs, {HOLDER}) by {
      assert Succ(objs, HOLDER) == Ids(ScanIds(Straddling(m), objs, 0));
    }
    if Reachable(objs, {HOLDER}, HELD) {
      var p :| PathTo(objs, {HOLDER}, p, HELD);
      ClosedHoldsPath(objs, {HOLDER}, p);
    }
  }

  /** Root scanning looks only at which ids are live. */
  lemma SameRoots(a: Objects, b: Objects, r: Roots)
    requires a.Keys == b.Keys
    ensures AllRoots(r, a) == AllRoots(r, b)
  {
    SameBuffers(a, b, r.callerMps);
    SameBuffers(a, b, r.loadedMps);
    SameSuspended(a, b, r.suspended);
    assert BufferRoots(r.frames, a) == BufferRoots(r.frames, b);
    assert BufferRoots(r.mp, a) == BufferRoots(r.mp, b);
  }

  lemma SameBuffers(a: Objects, b: Objects, bufs: seq<(nat, Buffer)>)
    requires a.Keys == b.Keys
    ensures BuffersRoots(bufs, a) == BuffersRoots(bufs, b)
  {
    forall i | 0 <= i < |bufs| ensures BufferRoots(bufs[i].1, a) == BufferRoots(bufs[i].1, b) {
    }
  }

  lemma {:induction false} SameSuspended(a: Objects, b: Objects, ts: seq<SuspendedThread>)
    requires a.Keys == b.Keys
    ensures SuspendedRoots(ts, a) == SuspendedRoots(ts, b)
  {
    if ts != [] {
      SameSuspended(a, b, ts[..|ts| - 1]);
      var t := ts[|ts| - 1];
      SameBuffers(a, b, t.callerMpStack);
      assert BufferRoots(t.frames.data, a) == BufferRoots(t.frames.data, b);
      assert BufferRoots(t.mp, a) == BufferRoots(t.mp, b);
    }
  }
}
