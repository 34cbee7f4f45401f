/** What the collector must keep: the objects reachable along traced edges. */
module Reachability {
  import opened Memory
  import opened Arith
  import opened TraceMaps
  import opened Heaps
  import opened Threads

  /** The live ids among the words of a buffer, from `offset` up. */
  function ScanIds(buf: Buffer, objs: Objects, offset: nat): seq<HeapId>
    decreases |buf| - offset
  {
    if offset + 4 > |buf| then []
    else
      var word := WordId(ReadWord(buf, offset));
      (if Live(objs, word) then [word] else []) + ScanIds(buf, objs, offset + 4)
  }

  function MappedIds(buf: Buffer, offsets: seq<nat>, objs: Objects): seq<HeapId> {
    if offsets == [] then []
    else
      var word := WordId(ReadWord(buf, offsets[0]));
      (if Live(objs, word) then [word] else []) + MappedIds(buf, offsets[1..], objs)
  }

  function BufferIds(trace: Option<TraceMap>, bytes: Buffer, objs: Objects): seq<HeapId> {
    match trace
    case Some(m) => MappedIds(bytes, PointerOffsets(m, |bytes|), objs)
    case None => ScanIds(bytes, objs, 0)
  }

  /** The ids an object refers to, as the collector traces it. */
  function Edges(o: HeapObject, objs: Objects): seq<HeapId> {
    match o.data
    case Record(bytes) => BufferIds(o.trace, bytes, objs)
    case Array(_, _, bytes, _) => BufferIds(o.trace, bytes, objs)
    case Adt(_, bytes) => BufferIds(o.trace, bytes, objs)
    case List(head, tail) => ScanIds(head, objs, 0) + [tail]
    case ArraySlice(parent, _, _, _, _) => [parent]
    case Channel(_, pending) => if pending.Some? then ScanIds(pending.value, objs, 0) else []
    case _ => []
  }

  function Ids(xs: seq<HeapId>): set<HeapId> {
    set x | x in xs && x != NIL
  }

  /** The non-nil targets of an object's edges; a dead id has none. */
  function Succ(objs: Objects, id: HeapId): set<HeapId> {
    if Live(objs, id) then Ids(Edges(objs[id], objs)) else {}
  }

  ghost predicate IsPath(objs: Objects, p: seq<HeapId>) {
    p != [] && forall i :: 0 < i < |p| ==> p[i] in Succ(objs, p[i - 1])
  }

  ghost predicate PathTo(objs: Objects, roots: set<HeapId>, p: seq<HeapId>, id: HeapId) {
    IsPath(objs, p) && p[0] in roots && p[|p| - 1] == id
  }

  ghost predicate Reachable(objs: Objects, roots: set<HeapId>, id: HeapId) {
    exists p :: PathTo(objs, roots, p, id)
  }

  ghost predicate ClosedUnder(objs: Objects, s: set<HeapId>) {
    forall x, y :: x in s && y in Succ(objs, x) ==> y in s
  }

  /** Marking from `roots` added to a closed set exactly what `roots` reach. */
  ghost predicate MarkedFrom(objs: Objects, roots: set<HeapId>, already: set<HeapId>, marked: set<HeapId>) {
    && ClosedUnder(objs, marked) && NIL !in marked
    && already <= marked && roots <= marked
    && forall x :: x in marked ==> x in already || Reachable(objs, roots, x)
  }

  lemma RootReachable(objs: Objects, roots: set<HeapId>, id: HeapId)
    requires id in roots
    ensures Reachable(objs, roots, id)
  {
    assert PathTo(objs, roots, [id], id);
  }

  lemma PathExtends(objs: Objects, p: seq<HeapId>, next: HeapId)
    requires IsPath(objs, p) && next in Succ(objs, p[|p| - 1])
    ensures IsPath(objs, p + [next])
  {
    var q := p + [next];
    forall i | 0 < i < |q| ensures q[i] in Succ(objs, q[i - 1]) {
      assert q[i - 1] == p[i - 1];
    }
  }

  lemma StepReachable(objs: Objects, roots: set<HeapId>, id: HeapId, next: HeapId)
    requires Reachable(objs, roots, id) && next in Succ(objs, id)
    ensures Reachable(objs, roots, next)
  {
    var p :| PathTo(objs, roots, p, id);
    PathExtends(objs, p, next);
    assert PathTo(objs, roots, p + [next], next);
  }

  /** A closed set that holds the start of a path holds its end. */
  lemma {:induction false} ClosedHoldsPath(objs: Objects, s: set<HeapId>, p: seq<HeapId>)
    requires ClosedUnder(objs, s) && IsPath(objs, p) && p[0] in s
    ensures p[|p| - 1] in s
  {
    if |p| > 1 {
      var q := p[..|p| - 1];
      ClosedHoldsPath(objs, s, q);
      assert p[|p| - 1] in Succ(objs, q[|q| - 1]);
    }
  }

  lemma ReachableMono(objs: Objects, few: set<HeapId>, many: set<HeapId>, id: HeapId)
    requires Reachable(objs, few, id) && few <= many
    ensures Reachable(objs, many, id)
  {
    var p :| PathTo(objs, few, p, id);
    assert PathTo(objs, many, p, id);
  }

  lemma MarkedNothing(objs: Objects, already: set<HeapId>)
    requires ClosedUnder(objs, already) && NIL !in already
    ensures MarkedFrom(objs, {}, already, already)
  {
  }

  /** Two marking passes over one shared set amount to one pass from both root sets. */
  lemma MarkedUnion(objs: Objects, a: set<HeapId>, b: set<HeapId>, start: set<HeapId>, mid: set<HeapId>,
                    end: set<HeapId>)
    requires MarkedFrom(objs, a, start, mid) && MarkedFrom(objs, b, mid, end)
    ensures MarkedFrom(objs, a + b, start, end)
  {
    forall x | x in end && x !in start ensures Reachable(objs, a + b, x) {
      if x in mid {
        ReachableMono(objs, a, a + b, x);
      } else {
        ReachableMono(objs, b, a + b, x);
      }
    }
  }

  /** Marking from scratch finds exactly the reachable ids. */
  lemma MarkedIsReachable(objs: Objects, roots: set<HeapId>, marked: set<HeapId>)
    requires MarkedFrom(objs, roots, {}, marked)
    ensures forall id :: id in marked <==> Reachable(objs, roots, id)
  {
    forall id | Reachable(objs, roots, id) ensures id in marked {
      var p :| PathTo(objs, roots, p, id);
      ClosedHoldsPath(objs, marked, p);
    }
  }

  /** Everything the collector starts from. */
  datatype Roots = Roots(
    frames: Buffer,
    mp: Buffer,
    callerMps: seq<(nat, Buffer)>,
    heapRefs: seq<(HeapId, nat)>,
    loadedMps: seq<(nat, Buffer)>,
    suspended: seq<SuspendedThread>)

  /** A live id stands in a word-aligned place of the buffer. */
  ghost predicate WordAt(buf: Buffer, offset: nat, id: HeapId) {
    offset % 4 == 0 && Fits(buf, offset, 4) && WordId(ReadWord(buf, offset)) == id
  }

  ghost function BufferRoots(buf: Buffer, objs: Objects): set<HeapId> {
    set id | id in objs && id != NIL && exists offset: nat :: WordAt(buf, offset, id)
  }

  ghost function BuffersRoots(bufs: seq<(nat, Buffer)>, objs: Objects): set<HeapId> {
    set id | id in objs && id != NIL && exists i :: 0 <= i < |bufs| && id in BufferRoots(bufs[i].1, objs)
  }

  ghost function RefRoots(refs: seq<(HeapId, nat)>): set<HeapId> {
    set i | 0 <= i < |refs| && refs[i].0 != NIL :: refs[i].0
  }

  ghost function ThreadRoots(frames: Buffer, mp: Buffer, callerMps: seq<(nat, Buffer)>, refs: seq<(HeapId, nat)>,
                             objs: Objects): set<HeapId>
  {
    BufferRoots(frames, objs) + BufferRoots(mp, objs) + BuffersRoots(callerMps, objs) + RefRoots(refs)
  }

  ghost function SavedRoots(t: SuspendedThread, objs: Objects): set<HeapId> {
    ThreadRoots(t.frames.data, t.mp, t.callerMpStack, t.heapRefs, objs)
  }

  ghost function SuspendedRoots(ts: seq<SuspendedThread>, objs: Objects): set<HeapId> {
    if ts == [] then {} else SuspendedRoots(ts[..|ts| - 1], objs) + SavedRoots(ts[|ts| - 1], objs)
  }

  ghost function AllRoots(r: Roots, objs: Objects): set<HeapId> {
    ThreadRoots(r.frames, r.mp, r.callerMps, r.heapRefs, objs)
      + BuffersRoots(r.loadedMps, objs) + SuspendedRoots(r.suspended, objs)
  }

  /** What is left after a collection. */
  ghost function Survivors(objs: Objects, roots: set<HeapId>): Objects {
    map id | id in objs && (Reachable(objs, roots, id) || IsPermanent(objs[id].data)) :: objs[id]
  }

  lemma SuspendedRootsStep(ts: seq<SuspendedThread>, i: nat, objs: Objects)
    requires i < |ts|
    ensures SuspendedRoots(ts[..i + 1], objs) == SuspendedRoots(ts[..i], objs) + SavedRoots(ts[i], objs)
  {
    assert ts[..i + 1][..i] == ts[..i];
  }

  lemma BuffersRootsStep(bufs: seq<(nat, Buffer)>, i: nat, objs: Objects)
    requires i < |bufs|
    ensures BuffersRoots(bufs[..i + 1], objs) == BuffersRoots(bufs[..i], objs) + BufferRoots(bufs[i].1, objs)
  {
    var more := bufs[..i + 1];
    forall id | id in BuffersRoots(more, objs)
      ensures id in BuffersRoots(bufs[..i], objs) + BufferRoots(bufs[i].1, objs)
    {
      var k :| 0 <= k < |more| && id in BufferRoots(more[k].1, objs);
      assert k < i ==> more[k] == bufs[..i][k];
    }
    forall id | id in BuffersRoots(bufs[..i], objs) + BufferRoots(bufs[i].1, objs)
      ensures id in BuffersRoots(more, objs)
    {
      if id in BuffersRoots(bufs[..i], objs) {
        var k :| 0 <= k < i && id in BufferRoots(bufs[..i][k].1, objs);
        assert id in BufferRoots(more[k].1, objs);
      } else {
        assert id in BufferRoots(more[i].1, objs);
      }
    }
  }

  /** The conservative scan finds exactly the live ids standing at word-aligned offsets. */
  lemma {:induction false} ScanIdsMembers(buf: Buffer, objs: Objects, offset: nat)
    requires offset % 4 == 0
    ensures forall id :: id in ScanIds(buf, objs, offset) <==>
      Live(objs, id) && exists at: nat :: at >= offset && WordAt(buf, at, id)
    ensures offset == 0 ==> Ids(ScanIds(buf, objs, 0)) == BufferRoots(buf, objs)
    decreases |buf| - offset
  {
    if offset + 4 <= |buf| {
      ScanIdsMembers(buf, objs, offset + 4);
      var word := WordId(ReadWord(buf, offset));
      var rest := ScanIds(buf, objs, offset + 4);
      assert forall id :: id in ScanIds(buf, objs, offset) <==> id in rest || (Live(objs, word) && id == word);
      assert WordAt(buf, offset, word);
      forall id, at: nat | at >= offset && WordAt(buf, at, id) ensures at == offset || at >= offset + 4 {
      }
    }
  }

  lemma {:induction false} MappedIdsMembers(buf: Buffer, offsets: seq<nat>, objs: Objects)
    ensures forall id :: id in MappedIds(buf, offsets, objs) <==>
      Live(objs, id) && exists at :: at in offsets && WordId(ReadWord(buf, at)) == id
  {
    if offsets != [] {
      MappedIdsMembers(buf, offsets[1..], objs);
      assert offsets == [offsets[0]] + offsets[1..];
    }
  }

  // --- What that means, in terms of the fields alone ---

  /** A scanned word of the buffer is the id: any aligned one, or with a map any that the map marks in some element. */
  ghost predicate Names(trace: Option<TraceMap>, bytes: Buffer, x: HeapId) {
    match trace
    case None => exists at: nat :: WordAt(bytes, at, x)
    case Some(m) => exists at: nat :: MarkedWordAt(m, bytes, at, x)
  }

  ghost predicate MarkedWordAt(m: TraceMap, bytes: Buffer, at: nat, x: HeapId) {
    && Fits(bytes, at, 4) && WordId(ReadWord(bytes, at)) == x
    && m.stride > 0 && exists e: nat, o: nat :: o in m.offsets && Placed(m.stride, e, o, at)
  }

  /** What the fields of an object refer to. Its map, if it has one, speaks of the bytes of records, arrays and ADTs. */
  ghost predicate Refers(o: HeapObject, x: HeapId) {
    || (o.data.Record? && Names(o.trace, o.data.bytes, x))
    || (o.data.Array? && Names(o.trace, o.data.bytes, x))
    || (o.data.Adt? && Names(o.trace, o.data.bytes, x))
    || (o.data.List? && (Names(None, o.data.head, x) || o.data.tail == x))
    || (o.data.ArraySlice? && o.data.parent == x)
    || (o.data.Channel? && o.data.pending.Some? && Names(None, o.data.pending.value, x))
  }

  lemma BufferIdsExactly(trace: Option<TraceMap>, bytes: Buffer, objs: Objects, x: HeapId)
    ensures x in BufferIds(trace, bytes, objs) <==> Live(objs, x) && Names(trace, bytes, x)
  {
    match trace
    case None => ScanIdsMembers(bytes, objs, 0);
    case Some(m) =>
      MappedIdsMembers(bytes, PointerOffsets(m, |bytes|), objs);
      if x in BufferIds(trace, bytes, objs) {
        var at :| at in PointerOffsets(m, |bytes|) && WordId(ReadWord(bytes, at)) == x;
        var e, o := MemberIsMarked(m, |bytes|, at);
        assert MarkedWordAt(m, bytes, at, x);
      }
      if at: nat :| MarkedWordAt(m, bytes, at, x) {
        var e: nat, o: nat :| o in m.offsets && Placed(m.stride, e, o, at);
        MarkedIsMember(m, |bytes|, at, e, o);
      }
  }

  /** An object has an edge to a live object if and only if a field of it, by its kind, refers to that object. */
  lemma EdgesExactly(o: HeapObject, objs: Objects, x: HeapId)
    requires Live(objs, x)
    ensures x in Edges(o, objs) <==> Refers(o, x)
  {
    match o.data
    case Record(bytes) => BufferIdsExactly(o.trace, bytes, objs, x);
    case Array(_, _, bytes, _) => BufferIdsExactly(o.trace, bytes, objs, x);
    case Adt(_, bytes) => BufferIdsExactly(o.trace, bytes, objs, x);
    case List(head, tail) => BufferIdsExactly(None, head, objs, x);
    case Channel(_, pending) =>
      if pending.Some? {
        BufferIdsExactly(None, pending.value, objs, x);
      }
    case _ =>
  }

  ghost predicate InSome(bufs: seq<(nat, Buffer)>, x: HeapId) {
    exists i :: 0 <= i < |bufs| && Names(None, bufs[i].1, x)
  }

  ghost predicate InTable(refs: seq<(HeapId, nat)>, x: HeapId) {
    exists i :: 0 <= i < |refs| && refs[i].0 == x
  }

  /** A thread holds the id: in its frames, its module data, its callers' module data, or its heap references. */
  ghost predicate ThreadHolds(frames: Buffer, mp: Buffer, callerMps: seq<(nat, Buffer)>, refs: seq<(HeapId, nat)>,
                              x: HeapId)
  {
    Names(None, frames, x) || Names(None, mp, x) || InSome(callerMps, x) || InTable(refs, x)
  }

  ghost predicate Saves(t: SuspendedThread, x: HeapId) {
    ThreadHolds(t.frames.data, t.mp, t.callerMpStack, t.heapRefs, x)
  }

  /** The running thread, a loaded module's data or a suspended thread holds the id. */
  ghost predicate IsRoot(r: Roots, x: HeapId) {
    || ThreadHolds(r.frames, r.mp, r.callerMps, r.heapRefs, x)
    || InSome(r.loadedMps, x)
    || exists i :: 0 <= i < |r.suspended| && Saves(r.suspended[i], x)
  }

  lemma ThreadRootsExactly(frames: Buffer, mp: Buffer, callerMps: seq<(nat, Buffer)>, refs: seq<(HeapId, nat)>,
                           objs: Objects, x: HeapId)
    requires Live(objs, x)
    ensures x in ThreadRoots(frames, mp, callerMps, refs, objs) <==> ThreadHolds(frames, mp, callerMps, refs, x)
  {
    BuffersRootsExactly(callerMps, objs, x);
  }

  lemma BuffersRootsExactly(bufs: seq<(nat, Buffer)>, objs: Objects, x: HeapId)
    requires Live(objs, x)
    ensures x in BuffersRoots(bufs, objs) <==> InSome(bufs, x)
  {
    forall i | 0 <= i < |bufs| ensures x in BufferRoots(bufs[i].1, objs) <==> Names(None, bufs[i].1, x) {
    }
  }

  lemma {:induction false} SuspendedRootsExactly(ts: seq<SuspendedThread>, objs: Objects, x: HeapId)
    requires Live(objs, x)
    ensures x in SuspendedRoots(ts, objs) <==> exists i :: 0 <= i < |ts| && Saves(ts[i], x)
  {
    if ts != [] {
      var fewer, t := ts[..|ts| - 1], ts[|ts| - 1];
      SuspendedRootsExactly(fewer, objs, x);
      ThreadRootsExactly(t.frames.data, t.mp, t.callerMpStack, t.heapRefs, objs, x);
      assert forall i :: 0 <= i < |fewer| ==> fewer[i] == ts[i];
    }
  }

  /** The live roots are exactly the live ids that something running, loaded or suspended holds. */
  lemma RootsExactly(r: Roots, objs: Objects, x: HeapId)
    requires Live(objs, x)
    ensures x in AllRoots(r, objs) <==> IsRoot(r, x)
  {
    ThreadRootsExactly(r.frames, r.mp, r.callerMps, r.heapRefs, objs, x);
    BuffersRootsExactly(r.loadedMps, objs, x);
    SuspendedRootsExactly(r.suspended, objs, x);
  }

  /** From a root to the object at the end, each live object on the way refers to the next. */
  ghost predicate HoldsChain(objs: Objects, r: Roots, p: seq<HeapId>, x: HeapId) {
    && p != [] && IsRoot(r, p[0]) && p[|p| - 1] == x
    && (forall i :: 0 <= i < |p| ==> Live(objs, p[i]))
    && forall i, j :: 0 <= i < j < |p| && j == i + 1 ==> Refers(objs[p[i]], p[j])
  }

  ghost predicate Held(objs: Objects, r: Roots, x: HeapId) {
    exists p :: HoldsChain(objs, r, p, x)
  }

  lemma PathLive(objs: Objects, p: seq<HeapId>, i: nat)
    requires IsPath(objs, p) && i < |p| && Live(objs, p[|p| - 1])
    ensures Live(objs, p[i])
  {
    if i + 1 < |p| {
      assert p[i + 1] in Succ(objs, p[i]);
    }
  }

  lemma PathIsChain(objs: Objects, r: Roots, p: seq<HeapId>, x: HeapId)
    requires Live(objs, x) && PathTo(objs, AllRoots(r, objs), p, x)
    ensures HoldsChain(objs, r, p, x)
  {
    forall i | 0 <= i < |p| ensures Live(objs, p[i]) {
      PathLive(objs, p, i);
    }
    RootsExactly(r, objs, p[0]);
    forall i, j | 0 <= i < j < |p| && j == i + 1 ensures Refers(objs[p[i]], p[j]) {
      assert p[j] in Succ(objs, p[j - 1]);
      EdgesExactly(objs[p[i]], objs, p[j]);
    }
  }

  lemma ChainIsPath(objs: Objects, r: Roots, p: seq<HeapId>, x: HeapId)
    requires HoldsChain(objs, r, p, x)
    ensures PathTo(objs, AllRoots(r, objs), p, x)
  {
    RootsExactly(r, objs, p[0]);
    forall j | 0 < j < |p| ensures p[j] in Succ(objs, p[j - 1]) {
      EdgesExactly(objs[p[j - 1]], objs, p[j]);
    }
  }

  /** What is left after a collection is exactly what some root holds, through fields alone, and the module handles. */
  lemma SurvivorsExactly(objs: Objects, r: Roots, x: HeapId)
    requires NIL !in objs
    ensures x in Survivors(objs, AllRoots(r, objs)) <==> x in objs && (Held(objs, r, x) || IsPermanent(objs[x].data))
  {
    var roots := AllRoots(r, objs);
    if x in objs && Reachable(objs, roots, x) {
      var p :| PathTo(objs, roots, p, x);
      PathIsChain(objs, r, p, x);
    }
    if p :| HoldsChain(objs, r, p, x) {
      ChainIsPath(objs, r, p, x);
    }
  }
}
