/** What moving a counted pointer keeps (`move_ptr_to_dst` in vm.rs). */
module PointerLaws {
  import opened Memory
  import opened Heaps
  import opened Addresses
  import opened FlatStores
  import opened VmStores
  import Frames = FrameStacks
  import RefCounts

  /** Releasing a chain lowers any one count at most once, and touches no contents. */
  lemma {:induction false} ReleaseOnce(objs: Objects, id: HeapId, x: HeapId)
    requires Live(objs, x) && objs[x].refCount >= 2
    ensures Live(Release(objs, id), x)
    ensures Release(objs, id)[x].data == objs[x].data && Release(objs, id)[x].refCount >= objs[x].refCount - 1
    decreases |objs|
  {
    if Live(objs, id) && objs[id].refCount <= 1 && !IsPermanent(objs[id].data) {
      Shrinks(objs, id);
      ReleaseOnce(objs - {id}, Child(objs[id].data), x);
    }
  }

  lemma MovedDescends(s: Store, dst: AddrTarget, newId: HeapId)
    requires newId < 0x1_0000_0000 && SlicesDescend(s.objects)
    ensures SlicesDescend(PtrMoved(s, dst, newId).objects)
  {
    CountsMoveNothing(s, newId);
    var held := Counted(s, newId);
    var data := WordBytes(Frames.AsWord(newId));
    StoredMovesNothing(held, dst, data, dst);
    RefCounts.ReleaseKeepsContents(Stored(held, dst, data).objects, WordId(LoadWord(s, dst, 0)));
  }

  lemma StoredKeepsCounts(s: Store, target: AddrTarget, data: Buffer)
    requires SlicesDescend(s.objects)
    ensures Stored(s, target, data).objects.Keys == s.objects.Keys
    ensures forall x :: x in s.objects ==>
      Stored(s, target, data).objects[x].refCount == s.objects[x].refCount
  {
  }

  /** The object pointed to survives the move, even when the pointer it replaces owned it. */
  lemma MovedStaysLive(s: Store, dst: AddrTarget, newId: HeapId)
    requires newId < 0x1_0000_0000 && SlicesDescend(s.objects)
    requires Live(s.objects, newId) && s.objects[newId].refCount >= 1
    ensures Live(PtrMoved(s, dst, newId).objects, newId)
    ensures PtrMoved(s, dst, newId).objects[newId].refCount >= s.objects[newId].refCount
  {
    CountsMoveNothing(s, newId);
    var held := Counted(s, newId);
    var data := WordBytes(Frames.AsWord(newId));
    StoredKeepsCounts(held, dst, data);
    ReleaseOnce(Stored(held, dst, data).objects, WordId(LoadWord(s, dst, 0)), newId);
  }

  /** Storing the word a location already holds changes nothing. */
  lemma StoreBack(s: Store, dst: AddrTarget, w: Word)
    requires SlicesDescend(s.objects) && InRange(s, dst, 4) && !dst.Immediate? && LoadWord(s, dst, 0) == w
    ensures Stored(s, dst, WordBytes(w)) == s
  {
    var l := Locate(s, dst).value;
    var bytes := BytesOf(s, l.region);
    WordOfBytes(bytes, l.offset);
    WordBytesOfRead(bytes, l.offset);
    assert Patch(bytes, l.offset, WordBytes(w)) == bytes;
  }

  lemma CountedLoads(s: Store, id: HeapId, target: AddrTarget)
    requires SlicesDescend(s.objects)
    ensures SlicesDescend(Counted(s, id).objects)
    ensures InRange(Counted(s, id), target, 4) == InRange(s, target, 4)
    ensures LoadWord(Counted(s, id), target, 0) == LoadWord(s, target, 0)
  {
    CountedKeepsBytes(s, id, target);
  }

  lemma ReleaseUndoesCount(s: Store, id: HeapId)
    requires Live(s.objects, id) && s.objects[id].refCount >= 1
    ensures Release(Counted(s, id).objects, id) == s.objects
  {
    assert Counted(s, id).objects[id := s.objects[id]] == s.objects;
  }

  /** Moving a pointer onto itself changes nothing at all: no count, no contents, nothing freed. */
  lemma SelfMove(s: Store, dst: AddrTarget, id: HeapId)
    requires id < 0x1_0000_0000 && SlicesDescend(s.objects) && Live(s.objects, id) && s.objects[id].refCount >= 1
    requires InRange(s, dst, 4) && !dst.Immediate? && WordId(LoadWord(s, dst, 0)) == id
    ensures PtrMoved(s, dst, id) == s
  {
    CountedLoads(s, id, dst);
    StoreBack(Counted(s, id), dst, Frames.AsWord(id));
    ReleaseUndoesCount(s, id);
  }

  lemma CountedKeepsBytes(s: Store, id: HeapId, target: AddrTarget)
    requires SlicesDescend(s.objects)
    ensures SlicesDescend(Counted(s, id).objects)
    ensures Locate(Counted(s, id), target) == Locate(s, target)
    ensures Locate(s, target).Some? ==>
      BytesOf(Counted(s, id), Locate(s, target).value.region) == BytesOf(s, Locate(s, target).value.region)
  {
    if target.HeapArray? {
      CountedKeepsRoot(s, id, target.id, target.offset);
    }
  }

  lemma {:induction false} CountedKeepsRoot(s: Store, id: HeapId, at: HeapId, offset: nat)
    requires SlicesDescend(s.objects) && SlicesDescend(Counted(s, id).objects)
    ensures Root(Counted(s, id).objects, at, offset) == Root(s.objects, at, offset)
    decreases at
  {
    if Live(s.objects, at) && s.objects[at].data.ArraySlice? {
      CountedKeepsRoot(s, id, s.objects[at].data.parent, s.objects[at].data.byteStart + offset);
    }
  }

  lemma StoredHolds(s: Store, dst: AddrTarget, id: HeapId)
    requires id < 0x1_0000_0000 && SlicesDescend(s.objects) && !dst.Immediate?
    ensures var after := Stored(s, dst, WordBytes(Frames.AsWord(id)));
      SlicesDescend(after.objects) && WordId(LoadWord(after, dst, 0)) == if InRange(s, dst, 4) then id else NIL
  {
    var data := WordBytes(Frames.AsWord(id));
    StoredMovesNothing(s, dst, data, dst);
    if InRange(s, dst, 4) {
      LoadStored(s, dst, data, dst);
      DataReadsBack(id);
    } else {
      OutOfRange(s, dst, data);
      WordOfBytes([], 0);
    }
  }

  /** The heap objects a location is reached through: a slice, its parents, and the root. */
  function Path(objs: Objects, id: HeapId): set<HeapId>
    requires SlicesDescend(objs)
    decreases id
  {
    {id} + if Live(objs, id) && objs[id].data.ArraySlice? then Path(objs, objs[id].data.parent) else {}
  }

  function Holders(s: Store, target: AddrTarget): set<HeapId>
    requires SlicesDescend(s.objects)
  {
    if target.HeapArray? then Path(s.objects, target.id) else {}
  }

  /** Some objects went; the rest have their contents. */
  ghost predicate Remains(objs: Objects, fewer: Objects) {
    fewer.Keys <= objs.Keys && forall x :: x in fewer ==> fewer[x].data == objs[x].data
  }

  lemma {:induction false} PathAfter(objs: Objects, fewer: Objects, id: HeapId, offset: nat)
    requires SlicesDescend(objs) && SlicesDescend(fewer) && Remains(objs, fewer)
    ensures (forall x :: x in Path(objs, id) && x in objs ==> x in fewer) ==>
      Root(fewer, id, offset) == Root(objs, id, offset)
    ensures (exists x :: x in Path(objs, id) && x in objs && x !in fewer) ==> !Live(fewer, Root(fewer, id, offset).0)
    ensures Root(objs, id, offset).0 in Path(objs, id)
    decreases id
  {
    if Live(objs, id) && objs[id].data.ArraySlice? {
      PathAfter(objs, fewer, objs[id].data.parent, objs[id].data.byteStart + offset);
    }
  }

  /** After objects went, a target still loads what it did if nothing on its path went, and zeros if something did. */
  lemma LoadAfter(s: Store, fewer: Objects, target: AddrTarget)
    requires SlicesDescend(s.objects) && SlicesDescend(fewer) && Remains(s.objects, fewer) && !target.Immediate?
    ensures LoadWord(s.(objects := fewer), target, 0) ==
      if exists x :: x in Holders(s, target) && x in s.objects && x !in fewer then 0 else LoadWord(s, target, 0)
  {
    if target.HeapArray? {
      PathAfter(s.objects, fewer, target.id, target.offset);
      WordOfBytes([], 0);
    }
  }

  /** Storing bytes changes nothing that a release goes by. */
  lemma StoredDooms(s: Store, dst: AddrTarget, data: Buffer, dropped: HeapId, x: HeapId)
    requires SlicesDescend(s.objects)
    ensures RefCounts.Doomed(Stored(s, dst, data).objects, dropped, x) <==> RefCounts.Doomed(s.objects, dropped, x)
  {
    var after := Stored(s, dst, data).objects;
    forall p: seq<HeapId>
      ensures RefCounts.DyingChain(after, p, dropped, x) <==> RefCounts.DyingChain(s.objects, p, dropped, x)
    {
      StoredKeepsLinks(s, dst, data);
    }
  }

  lemma StoredKeepsLinks(s: Store, target: AddrTarget, data: Buffer)
    requires SlicesDescend(s.objects)
    ensures Stored(s, target, data).objects.Keys == s.objects.Keys
    ensures forall x :: x in s.objects ==> var o := Stored(s, target, data).objects[x];
      && o.refCount == s.objects[x].refCount && Child(o.data) == Child(s.objects[x].data)
      && IsPermanent(o.data) == IsPermanent(s.objects[x].data)
  {
  }

  lemma {:induction false} StoredPath(s: Store, target: AddrTarget, data: Buffer, id: HeapId)
    requires SlicesDescend(s.objects) && SlicesDescend(Stored(s, target, data).objects)
    ensures Path(Stored(s, target, data).objects, id) == Path(s.objects, id)
    decreases id
  {
    if Live(s.objects, id) && s.objects[id].data.ArraySlice? {
      StoredPath(s, target, data, s.objects[id].data.parent);
    }
  }

  lemma {:induction false} CountedPath(s: Store, newId: HeapId, id: HeapId)
    requires SlicesDescend(s.objects) && SlicesDescend(Counted(s, newId).objects)
    ensures Path(Counted(s, newId).objects, id) == Path(s.objects, id)
    decreases id
  {
    if Live(s.objects, id) && s.objects[id].data.ArraySlice? {
      CountedPath(s, newId, s.objects[id].data.parent);
    }
  }

  /** Dropping the replaced pointer frees an object that the destination is reached through. */
  ghost predicate DropsHolder(s: Store, dst: AddrTarget, newId: HeapId)
    requires SlicesDescend(s.objects)
  {
    exists x :: x in Holders(s, dst) && x in s.objects
      && RefCounts.Doomed(Counted(s, newId).objects, WordId(LoadWord(s, dst, 0)), x)
  }

  /**
   The destination then holds the pointer if and only if it is in range and
   dropping the pointer it held frees neither its root nor a slice on the way
   there (a nil reads as nil anywhere).
   */
  lemma MovedHolds(s: Store, dst: AddrTarget, newId: HeapId)
    requires newId < 0x1_0000_0000 && SlicesDescend(s.objects) && !dst.Immediate?
    ensures SlicesDescend(PtrMoved(s, dst, newId).objects)
    ensures WordId(LoadWord(PtrMoved(s, dst, newId), dst, 0)) == newId <==>
      newId == NIL || (InRange(s, dst, 4) && !DropsHolder(s, dst, newId))
  {
    MovedDescends(s, dst, newId);
    CountedLoads(s, newId, dst);
    var held := Counted(s, newId);
    StoredHolds(held, dst, newId);
    var written := Stored(held, dst, WordBytes(Frames.AsWord(newId)));
    var after := PtrMoved(s, dst, newId).objects;
    MovedRemains(s, dst, newId);
    LoadAfter(written, after, dst);
    HoldersKept(s, dst, newId);
  }

  lemma MovedRemains(s: Store, dst: AddrTarget, newId: HeapId)
    requires newId < 0x1_0000_0000 && SlicesDescend(s.objects)
    ensures SlicesDescend(Counted(s, newId).objects)
    ensures Remains(Stored(Counted(s, newId), dst, WordBytes(Frames.AsWord(newId))).objects,
      PtrMoved(s, dst, newId).objects)
  {
    CountsMoveNothing(s, newId);
    RefCounts.ReleaseKeepsContents(Stored(Counted(s, newId), dst, WordBytes(Frames.AsWord(newId))).objects,
      WordId(LoadWord(s, dst, 0)));
  }

  lemma HoldersKept(s: Store, dst: AddrTarget, newId: HeapId)
    requires newId < 0x1_0000_0000 && SlicesDescend(s.objects)
    requires SlicesDescend(Counted(s, newId).objects)
    requires SlicesDescend(Stored(Counted(s, newId), dst, WordBytes(Frames.AsWord(newId))).objects)
    ensures var written := Stored(Counted(s, newId), dst, WordBytes(Frames.AsWord(newId)));
      var after := PtrMoved(s, dst, newId).objects;
      (exists x :: x in Holders(written, dst) && x in written.objects && x !in after) <==> DropsHolder(s, dst, newId)
  {
    var held := Counted(s, newId);
    var data := WordBytes(Frames.AsWord(newId));
    var written := Stored(held, dst, data);
    var dropped := WordId(LoadWord(s, dst, 0));
    if dst.HeapArray? {
      CountedPath(s, newId, dst.id);
      StoredPath(held, dst, data, dst.id);
    }
    StoredKeepsLinks(held, dst, data);
    RefCounts.ReleaseFreesChain(written.objects, dropped);
    forall x ensures RefCounts.Doomed(written.objects, dropped, x) <==> RefCounts.Doomed(held.objects, dropped, x) {
      StoredDooms(held, dst, data, dropped, x);
    }
  }

  lemma DataReadsBack(id: HeapId)
    requires id < 0x1_0000_0000
    ensures WordId(ReadWord(WordBytes(Frames.AsWord(id)), 0)) == id
  {
    var w := Frames.AsWord(id);
    WordRoundTrip(Zeros(4), 0, w);
    assert WriteWord(Zeros(4), 0, w) == WordBytes(w);
  }

  /** A destination out of range keeps no pointer, but the object still gains a count that nothing will give back. */
  lemma MoveOutOfRangeLeaks(s: Store, dst: AddrTarget, newId: HeapId)
    requires newId < 0x1_0000_0000 && SlicesDescend(s.objects) && !dst.Immediate? && !InRange(s, dst, 4)
    ensures PtrMoved(s, dst, newId) == Counted(s, newId)
  {
    CountsMoveNothing(s, newId);
    CountedKeepsBytes(s, newId, dst);
    OutOfRange(Counted(s, newId), dst, WordBytes(Frames.AsWord(newId)));
    OutOfRange(s, dst, Zeros(4));
    WordOfBytes([], 0);
  }
}
