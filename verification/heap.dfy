/**
 The counted heap (heap.rs): a map from ids to objects, each with a reference
 count and, when its type was known, a pointer map.
 */
module Heaps {
  import opened Memory
  import opened TraceMaps

  type HeapId = nat
  const NIL: HeapId := 0
  const HEAP_ID_BASE: HeapId := 0x1000_0000

  datatype HeapData =
    | Record(bytes: Buffer)
    | Str(text: string)
    | Array(elemType: nat, elemSize: nat, bytes: Buffer, length: nat)
    | List(head: Buffer, tail: HeapId)
    | ModuleRef(moduleId: nat, funcMap: seq<Option<nat>>)
    | MainModule(funcMap: seq<Option<nat>>)
    | LoadedModule(moduleIdx: nat, funcMap: seq<Option<nat>>)
    | Channel(elemSize: nat, pending: Option<Buffer>)
    | Adt(tag: nat, bytes: Buffer)
    | ArraySlice(parent: HeapId, byteStart: nat, elemType: nat, elemSize: nat, length: nat)

  datatype HeapObject = HeapObject(refCount: nat, typeId: nat, trace: Option<TraceMap>, data: HeapData)

  type Objects = map<HeapId, HeapObject>

  /** `Heap::get` finds an object: nil never names one. */
  predicate Live(objs: Objects, id: HeapId) {
    id != NIL && id in objs
  }

  /** Module handles; every other kind of object can be freed. */
  predicate IsPermanent(d: HeapData): (r: bool)
    ensures r <==> !(d.Record? || d.Str? || d.Array? || d.List? || d.Channel? || d.Adt? || d.ArraySlice?)
  {
    d.ModuleRef? || d.MainModule? || d.LoadedModule?
  }

  /** A list owns its tail and a slice its parent, by a reference of their own; nothing else owns anything. */
  predicate Owns(d: HeapData, x: HeapId) {
    x != NIL && ((d.List? && d.tail == x) || (d.ArraySlice? && d.parent == x))
  }

  /** The one reference an object owns, or nil. */
  function Child(d: HeapData): (r: HeapId)
    ensures r != NIL ==> Owns(d, r)
    ensures forall x :: Owns(d, x) ==> x == r
  {
    match d
    case List(_, tail) => tail
    case ArraySlice(parent, _, _, _, _) => parent
    case _ => NIL
  }

  /** A word read from a buffer, as a heap id (`as u32`). */
  function WordId(w: Word): HeapId {
    ToUnsigned(w, 0x1_0000_0000)
  }

  /** Dropping one reference to `id`, and through every object that dies the one it owned. */
  function Release(objs: Objects, id: HeapId): Objects
    decreases |objs|
  {
    if !Live(objs, id) then objs
    else
      var o := objs[id];
      var count := if o.refCount > 0 then o.refCount - 1 else 0;
      if count == 0 && !IsPermanent(o.data) then
        assert |objs - {id}| < |objs| by { Shrinks(objs, id); }
        Release(objs - {id}, Child(o.data))
      else objs[id := o.(refCount := count)]
  }

  lemma Shrinks(objs: Objects, id: HeapId)
    requires id in objs
    ensures |objs - {id}| < |objs|
  {
    assert (objs - {id}).Keys == objs.Keys - {id};
    assert |(objs - {id}).Keys| == |objs - {id}| && |objs.Keys| == |objs|;
  }

  /** Slices are made over arrays that already exist, so parents are older. */
  ghost predicate SlicesDescend(objs: Objects) {
    forall id :: id in objs && objs[id].data.ArraySlice? ==> objs[id].data.parent < id
  }

  /** The bytes of an array, through any number of slices (`array_read`). */
  function ArrayRead(objs: Objects, id: HeapId, offset: nat, len: nat): (r: Option<Buffer>)
    requires SlicesDescend(objs)
    ensures r.Some? ==> |r.value| == len
    decreases id
  {
    if !Live(objs, id) then None
    else match objs[id].data
      case Array(_, _, bytes, _) => Some(ReadBytes(bytes, offset, len))
      case ArraySlice(parent, byteStart, _, _, _) => ArrayRead(objs, parent, byteStart + offset, len)
      case _ => None
  }

  /** `array_write` on one buffer: the part that fits is copied. */
  function Clipped(buf: Buffer, offset: nat, data: Buffer): Buffer {
    var end := if offset + |data| < |buf| then offset + |data| else |buf|;
    if offset < end then Patch(buf, offset, data[..end - offset]) else buf
  }

  /** The root object and offset that a chain of slices names. */
  function Root(objs: Objects, id: HeapId, offset: nat): (r: (HeapId, nat))
    requires SlicesDescend(objs)
    ensures Live(objs, r.0) ==> !objs[r.0].data.ArraySlice?
    decreases id
  {
    if Live(objs, id) && objs[id].data.ArraySlice?
    then Root(objs, objs[id].data.parent, objs[id].data.byteStart + offset)
    else (id, offset)
  }

  /** The same objects, with one buffer-bearing object's bytes replaced. */
  function SetBytes(objs: Objects, id: HeapId, bytes: Buffer): Objects
    requires id in objs && (objs[id].data.Array? || objs[id].data.Record? || objs[id].data.Adt?)
  {
    objs[id := objs[id].(data := objs[id].data.(bytes := bytes))]
  }

  function ArrayWritten(objs: Objects, id: HeapId, offset: nat, data: Buffer): Objects
    requires SlicesDescend(objs)
  {
    var (root, at) := Root(objs, id, offset);
    if Live(objs, root) && objs[root].data.Array?
    then SetBytes(objs, root, Clipped(objs[root].data.bytes, at, data))
    else objs
  }

  class Heap {
    var objects: Objects
    var nextId: HeapId

    constructor ()
      ensures objects == map[] && nextId == HEAP_ID_BASE
    {
      objects := map[];
      nextId := HEAP_ID_BASE;
    }

    method Alloc(typeId: nat, data: HeapData) returns (id: HeapId)
      modifies this
      ensures id == old(nextId) && nextId == id + 1
      ensures objects == old(objects)[id := HeapObject(1, typeId, None, data)]
    {
      id := AllocTyped(typeId, data, None);
    }

    method AllocTyped(typeId: nat, data: HeapData, trace: Option<TraceMap>) returns (id: HeapId)
      modifies this
      ensures id == old(nextId) && nextId == id + 1
      ensures objects == old(objects)[id := HeapObject(1, typeId, trace, data)]
    {
      id := nextId;
      nextId := nextId + 1;
      objects := objects[id := HeapObject(1, typeId, trace, data)];
    }

    method IncRef(id: HeapId)
      modifies this`objects
      ensures objects == if Live(old(objects), id)
        then old(objects)[id := old(objects)[id].(refCount := old(objects)[id].refCount + 1)]
        else old(objects)
    {
      if id == NIL {
        return;
      }
      if id in objects {
        objects := objects[id := objects[id].(refCount := objects[id].refCount + 1)];
      }
    }

    /** An explicit worklist: a list may be longer than the native stack is deep. */
    method DecRef(id: HeapId)
      modifies this`objects
      ensures objects == Release(old(objects), id)
    {
      if id == NIL {
        return;
      }
      var pending := [id];
      while pending != []
        invariant |pending| <= 1
        invariant (if pending == [] then objects else Release(objects, pending[0])) == Release(old(objects), id)
        invariant NIL !in pending
        decreases |objects|, |pending|
      {
        var top := pending[|pending| - 1];
        pending := pending[..|pending| - 1];
        var shouldFree := false;
        if top in objects {
          var o := objects[top];
          var count := if o.refCount > 0 then o.refCount - 1 else 0;
          shouldFree := count == 0 && !IsPermanent(o.data);
          if shouldFree {
            Shrinks(objects, top);
            objects := objects - {top};
            if Child(o.data) != NIL {
              pending := pending + [Child(o.data)];
            }
          } else {
            objects := objects[top := o.(refCount := count)];
            assert |objects.Keys| == |objects|;
          }
        }
      }
    }

    /** Keep the marked objects and the module handles. */
    method Sweep(marked: set<HeapId>)
      modifies this`objects
      ensures objects ==
        map id | id in old(objects) && (id in marked || IsPermanent(old(objects)[id].data)) :: old(objects)[id]
    {
      objects := map id | id in objects && (id in marked || IsPermanent(objects[id].data)) :: objects[id];
    }

    method ArrayWrite(id: HeapId, offset: nat, data: Buffer)
      requires SlicesDescend(objects)
      modifies this`objects
      ensures objects == ArrayWritten(old(objects), id, offset, data)
      decreases id
    {
      if Live(objects, id) && objects[id].data.ArraySlice? {
        ArrayWrite(objects[id].data.parent, objects[id].data.byteStart + offset, data);
        return;
      }
      if Live(objects, id) && objects[id].data.Array? {
        var bytes := objects[id].data.bytes;
        var end := if offset + |data| < |bytes| then offset + |data| else |bytes|;
        if offset < end {
          bytes := Patch(bytes, offset, data[..end - offset]);
        }
        objects := SetBytes(objects, id, bytes);
      }
    }

    /**
     A string about to be changed: its own object when no one else holds it,
     otherwise a private copy paid for with the caller's reference.
     */
    method CowString(id: HeapId) returns (r: Option<HeapId>)
      modifies this
      ensures r.Some? <==> Live(old(objects), id) && old(objects)[id].data.Str?
      ensures r.None? ==> objects == old(objects) && nextId == old(nextId)
      ensures r.Some? && old(objects)[id].refCount <= 1 ==>
        r.value == id && objects == old(objects) && nextId == old(nextId)
      ensures r.Some? && old(objects)[id].refCount > 1 ==>
        && r.value == old(nextId) && nextId == r.value + 1
        && objects == Release(old(objects), id)[
          r.value := HeapObject(1, old(objects)[id].typeId, None, old(objects)[id].data)]
    {
      if id == NIL || id !in objects || !objects[id].data.Str? {
        return None;
      }
      if objects[id].refCount > 1 {
        var cloned, typeId := objects[id].data, objects[id].typeId;
        DecRef(id);
        var newId := Alloc(typeId, cloned);
        return Some(newId);
      }
      return Some(id);
    }
  }
}
