/** The mark-and-sweep collector (gc.rs). */
module Collector {
  import opened Memory
  import opened TraceMaps
  import opened Heaps
  import opened Threads
  import opened Reachability

  method CollectIds(buf: Buffer, heap: Heap, worklist: seq<HeapId>) returns (out: seq<HeapId>)
    ensures out == worklist + ScanIds(buf, heap.objects, 0)
  {
    out := worklist;
    var offset := 0;
    while offset + 4 <= |buf|
      invariant out + ScanIds(buf, heap.objects, offset) == worklist + ScanIds(buf, heap.objects, 0)
    {
      var word := WordId(ReadWord(buf, offset));
      if word != NIL && Live(heap.objects, word) {
        out := out + [word];
      }
      offset := offset + 4;
    }
  }

  method CollectMappedIds(buf: Buffer, map_: TraceMap, heap: Heap, worklist: seq<HeapId>) returns (out: seq<HeapId>)
    ensures out == worklist + MappedIds(buf, PointerOffsets(map_, |buf|), heap.objects)
  {
    out := worklist;
    var offsets := PointerOffsets(map_, |buf|);
    for i := 0 to |offsets|
      invariant out + MappedIds(buf, offsets[i..], heap.objects) == worklist + MappedIds(buf, offsets, heap.objects)
    {
      var word := WordId(ReadWord(buf, offsets[i]));
      if word != NIL && Live(heap.objects, word) {
        out := out + [word];
      }
      assert offsets[i..][1..] == offsets[i + 1..];
    }
  }

  /** Push everything `id`'s object refers to. */
  method PushEdges(o: HeapObject, heap: Heap, worklist: seq<HeapId>) returns (out: seq<HeapId>)
    ensures out == worklist + Edges(o, heap.objects)
  {
    match o.data
    case Record(bytes) =>
      out := PushBuffer(o.trace, bytes, heap, worklist);
    case Array(_, _, bytes, _) =>
      out := PushBuffer(o.trace, bytes, heap, worklist);
    case Adt(_, bytes) =>
      out := PushBuffer(o.trace, bytes, heap, worklist);
    case List(head, tail) =>
      out := CollectIds(head, heap, worklist);
      out := out + [tail];
    case ArraySlice(parent, _, _, _, _) =>
      out := worklist + [parent];
    case Channel(_, pending) =>
      out := worklist;
      if pending.Some? {
        out := CollectIds(pending.value, heap, out);
      }
    case _ =>
      out := worklist;
  }

  method PushBuffer(trace: Option<TraceMap>, bytes: Buffer, heap: Heap, worklist: seq<HeapId>)
      returns (out: seq<HeapId>)
    ensures out == worklist + BufferIds(trace, bytes, heap.objects)
  {
    match trace
    case Some(m) => out := CollectMappedIds(bytes, m, heap, worklist);
    case None => out := CollectIds(bytes, heap, worklist);
  }

  /** Halfway through marking: edges out of the marked set lead back into it or into the worklist. */
  ghost predicate Marking(objs: Objects, roots: set<HeapId>, already: set<HeapId>, marked: set<HeapId>,
                          work: seq<HeapId>)
  {
    && NIL !in marked && already <= marked
    && (forall x, y :: x in marked && y in Succ(objs, x) ==> y in marked || y in work)
    && (forall x :: x in roots ==> x in marked || x in work)
    && (forall x :: x in marked ==> x in already || Reachable(objs, roots, x))
    && (forall x :: x in work && x != NIL ==> Reachable(objs, roots, x))
  }

  lemma StartMarking(objs: Objects, worklist: seq<HeapId>, already: set<HeapId>)
    requires ClosedUnder(objs, already) && NIL !in already
    ensures Marking(objs, Ids(worklist), already, already, worklist)
  {
    forall x | x in Ids(worklist) ensures Reachable(objs, Ids(worklist), x) {
      RootReachable(objs, Ids(worklist), x);
    }
  }

  /** An entry that is nil or already marked can be dropped. */
  lemma DropEntry(objs: Objects, roots: set<HeapId>, already: set<HeapId>, marked: set<HeapId>, work: seq<HeapId>,
                  id: HeapId)
    requires Marking(objs, roots, already, marked, work + [id])
    requires NIL !in roots && (id == NIL || id in marked)
    ensures Marking(objs, roots, already, marked, work)
  {
    assert forall x :: x in work ==> x in work + [id];
    forall x, y | x in marked && y in Succ(objs, x) ensures y in marked || y in work {
      assert y != NIL && (y in marked || y in work + [id]);
    }
    forall x | x in roots ensures x in marked || x in work {
      assert x != NIL && (x in marked || x in work + [id]);
    }
  }

  /** Any other entry is marked, and what it refers to joins the worklist. */
  lemma ExpandEntry(objs: Objects, roots: set<HeapId>, already: set<HeapId>, marked: set<HeapId>, work: seq<HeapId>,
                    id: HeapId, more: seq<HeapId>)
    requires Marking(objs, roots, already, marked, work + [id])
    requires id != NIL && Ids(more) == Succ(objs, id)
    ensures Marking(objs, roots, already, marked + {id}, work + more)
  {
    assert id in work + [id];
    forall x | x in work + more && x != NIL ensures Reachable(objs, roots, x) {
      if x in work {
        assert x in work + [id];
      } else {
        StepReachable(objs, roots, id, x);
      }
    }
    forall x, y | x in marked + {id} && y in Succ(objs, x) ensures y in marked + {id} || y in work + more {
      if x in marked {
        assert y in marked || y in work + [id];
      } else {
        assert y in Ids(more);
      }
    }
  }

  /**
   Mark everything reachable from the worklist. The set already marked is closed
   under edges, so what it holds is never expanded again; on a cyclic heap each
   turn either marks a live object or shortens the worklist.
   */
  method MarkAll(worklist: seq<HeapId>, heap: Heap, already: set<HeapId>) returns (marked: set<HeapId>)
    requires ClosedUnder(heap.objects, already) && NIL !in already
    ensures MarkedFrom(heap.objects, Ids(worklist), already, marked)
  {
    marked := already;
    var work := worklist;
    StartMarking(heap.objects, worklist, already);
    while work != []
      invariant Marking(heap.objects, Ids(worklist), already, marked, work)
      decreases heap.objects.Keys - marked, |work|
    {
      var id := work[|work| - 1];
      assert work == work[..|work| - 1] + [id];
      work := work[..|work| - 1];
      if id == NIL || id in marked {
        DropEntry(heap.objects, Ids(worklist), already, marked, work, id);
        continue;
      }
      ghost var before, popped := marked, work;
      marked := marked + {id};
      if Live(heap.objects, id) {
        work := PushEdges(heap.objects[id], heap, work);
        ExpandEntry(heap.objects, Ids(worklist), already, before, popped, id, Edges(heap.objects[id], heap.objects));
      } else {
        ExpandEntry(heap.objects, Ids(worklist), already, before, popped, id, []);
        assert work + [] == work;
      }
    }
  }

  /** Scan a buffer for anything that looks like a live id, and mark from there. */
  method ScanBuffer(buf: Buffer, heap: Heap, already: set<HeapId>) returns (marked: set<HeapId>)
    requires ClosedUnder(heap.objects, already) && NIL !in already
    ensures MarkedFrom(heap.objects, BufferRoots(buf, heap.objects), already, marked)
  {
    var worklist := CollectIds(buf, heap, []);
    ScanIdsMembers(buf, heap.objects, 0);
    assert worklist == ScanIds(buf, heap.objects, 0);
    marked := MarkAll(worklist, heap, already);
  }

  method ScanHeapRefs(refs: seq<(HeapId, nat)>, heap: Heap, already: set<HeapId>) returns (marked: set<HeapId>)
    requires ClosedUnder(heap.objects, already) && NIL !in already
    ensures MarkedFrom(heap.objects, RefRoots(refs), already, marked)
  {
    var worklist := seq(|refs|, i requires 0 <= i < |refs| => refs[i].0);
    forall x ensures x in Ids(worklist) <==> x in RefRoots(refs) {
      if x in RefRoots(refs) {
        var i :| 0 <= i < |refs| && refs[i].0 == x;
        assert worklist[i] == x;
      }
    }
    assert Ids(worklist) == RefRoots(refs);
    marked := MarkAll(worklist, heap, already);
  }

  method ScanBuffers(bufs: seq<(nat, Buffer)>, heap: Heap, already: set<HeapId>) returns (marked: set<HeapId>)
    requires ClosedUnder(heap.objects, already) && NIL !in already
    ensures MarkedFrom(heap.objects, BuffersRoots(bufs, heap.objects), already, marked)
  {
    marked := already;
    MarkedNothing(heap.objects, already);
    for i := 0 to |bufs|
      invariant MarkedFrom(heap.objects, BuffersRoots(bufs[..i], heap.objects), already, marked)
    {
      ghost var before := marked;
      marked := ScanBuffer(bufs[i].1, heap, marked);
      MarkedUnion(heap.objects, BuffersRoots(bufs[..i], heap.objects), BufferRoots(bufs[i].1, heap.objects), already,
        before, marked);
      BuffersRootsStep(bufs, i, heap.objects);
    }
    assert bufs[..|bufs|] == bufs;
  }

  method ScanThread(frames: Buffer, mp: Buffer, callerMps: seq<(nat, Buffer)>, refs: seq<(HeapId, nat)>, heap: Heap,
                    already: set<HeapId>)
    returns (marked: set<HeapId>)
    requires ClosedUnder(heap.objects, already) && NIL !in already
    ensures MarkedFrom(heap.objects, ThreadRoots(frames, mp, callerMps, refs, heap.objects), already, marked)
  {
    var m1 := ScanBuffer(frames, heap, already);
    var m2 := ScanBuffer(mp, heap, m1);
    MarkedUnion(heap.objects, BufferRoots(frames, heap.objects), BufferRoots(mp, heap.objects), already, m1, m2);
    var m3 := ScanBuffers(callerMps, heap, m2);
    MarkedUnion(heap.objects, BufferRoots(frames, heap.objects) + BufferRoots(mp, heap.objects),
      BuffersRoots(callerMps, heap.objects), already, m2, m3);
    marked := ScanHeapRefs(refs, heap, m3);
    MarkedUnion(heap.objects,
      BufferRoots(frames, heap.objects) + BufferRoots(mp, heap.objects) + BuffersRoots(callerMps, heap.objects),
      RefRoots(refs), already, m3, marked);
  }

  method ScanSuspended(ts: seq<SuspendedThread>, heap: Heap, already: set<HeapId>) returns (marked: set<HeapId>)
    requires ClosedUnder(heap.objects, already) && NIL !in already
    ensures MarkedFrom(heap.objects, SuspendedRoots(ts, heap.objects), already, marked)
  {
    marked := already;
    MarkedNothing(heap.objects, already);
    for i := 0 to |ts|
      invariant MarkedFrom(heap.objects, SuspendedRoots(ts[..i], heap.objects), already, marked)
    {
      ghost var before := marked;
      marked := ScanThread(ts[i].frames.data, ts[i].mp, ts[i].callerMpStack, ts[i].heapRefs, heap, marked);
      MarkedUnion(heap.objects, SuspendedRoots(ts[..i], heap.objects), SavedRoots(ts[i], heap.objects), already,
        before, marked);
      SuspendedRootsStep(ts, i, heap.objects);
    }
    assert ts[..|ts|] == ts;
  }

  /** The whole mark phase: the running thread, the loaded modules, then every suspended thread. */
  method MarkRoots(heap: Heap, roots: Roots) returns (marked: set<HeapId>)
    ensures MarkedFrom(heap.objects, AllRoots(roots, heap.objects), {}, marked)
  {
    ghost var objs := heap.objects;
    MarkedNothing(objs, {});
    var m1 := ScanBuffer(roots.frames, heap, {});
    var m2 := ScanBuffer(roots.mp, heap, m1);
    ghost var done := BufferRoots(roots.frames, objs) + BufferRoots(roots.mp, objs);
    MarkedUnion(objs, BufferRoots(roots.frames, objs), BufferRoots(roots.mp, objs), {}, m1, m2);
    var m3 := ScanBuffers(roots.callerMps, heap, m2);
    MarkedUnion(objs, done, BuffersRoots(roots.callerMps, objs), {}, m2, m3);
    done := done + BuffersRoots(roots.callerMps, objs);
    var m4 := ScanBuffers(roots.loadedMps, heap, m3);
    MarkedUnion(objs, done, BuffersRoots(roots.loadedMps, objs), {}, m3, m4);
    done := done + BuffersRoots(roots.loadedMps, objs);
    var m5 := ScanHeapRefs(roots.heapRefs, heap, m4);
    MarkedUnion(objs, done, RefRoots(roots.heapRefs), {}, m4, m5);
    done := done + RefRoots(roots.heapRefs);
    marked := ScanSuspended(roots.suspended, heap, m5);
    MarkedUnion(objs, done, SuspendedRoots(roots.suspended, objs), {}, m5, marked);
    assert done + SuspendedRoots(roots.suspended, objs) == AllRoots(roots, objs);
  }

  lemma NothingSurvivesNothing(objs: Objects, roots: set<HeapId>)
    requires |objs| == 0
    ensures Survivors(objs, roots) == objs
  {
    assert objs == map[];
  }

  lemma SweptAreSurvivors(objs: Objects, roots: set<HeapId>, marked: set<HeapId>)
    requires MarkedFrom(objs, roots, {}, marked)
    ensures (map id | id in objs && (id in marked || IsPermanent(objs[id].data)) :: objs[id]) == Survivors(objs, roots)
  {
    MarkedIsReachable(objs, roots, marked);
  }

  lemma CollectExactly(objs: Objects, roots: Roots)
    ensures NIL !in objs ==> forall x :: x in Survivors(objs, AllRoots(roots, objs)) <==>
      x in objs && (Held(objs, roots, x) || IsPermanent(objs[x].data))
  {
    if NIL !in objs {
      forall x ensures x in Survivors(objs, AllRoots(roots, objs)) <==>
        x in objs && (Held(objs, roots, x) || IsPermanent(objs[x].data))
      {
        SurvivorsExactly(objs, roots, x);
      }
    }
  }

  /** One collection: mark, then sweep. What is left is exactly what must survive. */
  method Collect(heap: Heap, roots: Roots)
    modifies heap`objects
    ensures heap.objects == Survivors(old(heap.objects), AllRoots(roots, old(heap.objects)))
    ensures NIL !in old(heap.objects) ==> forall x :: x in heap.objects <==>
      x in old(heap.objects) && (Held(old(heap.objects), roots, x) || IsPermanent(old(heap.objects)[x].data))
    ensures forall x :: x in heap.objects ==> heap.objects[x] == old(heap.objects)[x]
  {
    CollectExactly(heap.objects, roots);
    if |heap.objects| == 0 {
      NothingSurvivesNothing(heap.objects, AllRoots(roots, heap.objects));
      return;
    }
    var marked := MarkRoots(heap, roots);
    SweptAreSurvivors(heap.objects, AllRoots(roots, heap.objects), marked);
    heap.Sweep(marked);
  }
}
