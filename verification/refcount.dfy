/**
 The counting discipline of heap.rs: a count covers the references objects own
 plus the references callers hold, and releasing one never leaves a dangling id.
 */
module RefCounts {
  import opened Memory
  import opened Heaps
  import opened Threads
  import opened Reachability
  import TraceMaps
  import Collector

  /** The live objects whose owned link, a list tail or a slice parent, is `id`. */
  ghost function Owners(objs: Objects, id: HeapId): set<HeapId> {
    set x | x in objs && Owns(objs[x].data, id)
  }

  ghost function InDegree(objs: Objects, id: HeapId): nat {
    |Owners(objs, id)|
  }

  ghost predicate NoDangling(objs: Objects) {
    forall x, c :: x in objs && Owns(objs[x].data, c) ==> c in objs
  }

  /** Counts cover the owned links and the references in `held`; nothing named is dead. */
  ghost predicate Counted(objs: Objects, held: multiset<HeapId>) {
    && NIL !in objs
    && (forall h :: h in held ==> h in objs)
    && NoDangling(objs)
    && forall x :: x in objs ==> objs[x].refCount >= InDegree(objs, x) + held[x]
  }

  /** What a count says beyond the owned links: the references callers may still hold. */
  ghost function Slack(objs: Objects, id: HeapId): int
    requires id in objs
  {
    objs[id].refCount - InDegree(objs, id)
  }

  /** An object's death takes away just the link it owned. */
  lemma RemoveDegrees(objs: Objects, id: HeapId, x: HeapId)
    requires id in objs
    ensures InDegree(objs - {id}, x) == InDegree(objs, x) - (if Owns(objs[id].data, x) then 1 else 0)
  {
    var left := objs - {id};
    if Owns(objs[id].data, x) {
      assert id in Owners(objs, x);
      assert Owners(left, x) == Owners(objs, x) - {id};
    } else {
      assert Owners(left, x) == Owners(objs, x);
    }
  }

  lemma NobodyOwns(objs: Objects, held: multiset<HeapId>, id: HeapId)
    requires Counted(objs, held + multiset{id}) && objs[id].refCount <= 1
    ensures Owners(objs, id) == {} && NoDangling(objs - {id}) && held[id] == 0
  {
    var left := objs - {id};
    assert id in held + multiset{id} && (held + multiset{id})[id] == held[id] + 1;
    assert InDegree(objs, id) == 0;
    forall x, c | x in left && Owns(left[x].data, c) ensures c in left {
      assert x !in Owners(objs, id);
    }
  }

  /** The heap after an object died, and the reference it owned is about to be dropped. */
  lemma RemoveCounted(objs: Objects, held: multiset<HeapId>, id: HeapId)
    requires Counted(objs, held + multiset{id}) && objs[id].refCount <= 1
    ensures var c := Child(objs[id].data); var left := objs - {id};
      && Owners(objs, id) == {}
      && (c != NIL ==> Counted(left, held + multiset{c}))
      && (c == NIL ==> Counted(left, held))
      && forall x :: x in left ==> InDegree(left, x) == InDegree(objs, x) - (if Owns(objs[id].data, x) then 1 else 0)
  {
    var c := Child(objs[id].data);
    var left := objs - {id};
    NobodyOwns(objs, held, id);
    assert c != NIL ==> c in left by {
      assert id !in Owners(objs, id);
    }
    forall h | h in held ensures h in left {
      assert h in held + multiset{id};
    }
    forall x | x in left
      ensures InDegree(left, x) == InDegree(objs, x) - (if Owns(objs[id].data, x) then 1 else 0)
      ensures left[x].refCount >= InDegree(objs, x) + held[x]
    {
      RemoveDegrees(objs, id, x);
      assert (held + multiset{id})[x] == held[x];
    }
    if c != NIL {
      CountedWith(left, held, c);
    }
  }

  lemma CountedWith(objs: Objects, held: multiset<HeapId>, c: HeapId)
    requires c in objs && NIL !in objs && NoDangling(objs) && forall h :: h in held ==> h in objs
    requires forall x :: x in objs ==> objs[x].refCount >= InDegree(objs, x) + held[x] + (if x == c then 1 else 0)
    ensures Counted(objs, held + multiset{c})
  {
  }

  /** A count taken down by one without reaching zero, or on a module handle. */
  lemma LowerCounted(objs: Objects, held: multiset<HeapId>, id: HeapId)
    requires Counted(objs, held + multiset{id})
    ensures var after := objs[id := objs[id].(refCount := objs[id].refCount - 1)];
      Counted(after, held) && forall x :: x in objs ==> InDegree(after, x) == InDegree(objs, x)
  {
    assert id in held + multiset{id};
    var after := objs[id := objs[id].(refCount := objs[id].refCount - 1)];
    forall x | x in objs ensures InDegree(after, x) == InDegree(objs, x) {
      assert Owners(after, x) == Owners(objs, x);
    }
    forall h | h in held ensures h in after {
      assert h in held + multiset{id};
    }
  }

  /**
   Releasing a held reference keeps the discipline for everything still held:
   whatever the cascade frees, no live tail, parent or held id is left dangling.
   */
  lemma {:induction false} ReleaseKeepsCounted(objs: Objects, held: multiset<HeapId>, id: HeapId)
    requires Counted(objs, held + multiset{id})
    ensures Counted(Release(objs, id), held)
    decreases |objs|
  {
    assert id in held + multiset{id};
    if objs[id].refCount <= 1 && !IsPermanent(objs[id].data) {
      var c := Child(objs[id].data);
      assert Release(objs, id) == Release(objs - {id}, c);
      RemoveCounted(objs, held, id);
      if c != NIL {
        Shrinks(objs, id);
        ReleaseKeepsCounted(objs - {id}, held, c);
      }
    } else {
      LowerCounted(objs, held, id);
      assert objs[id].refCount >= 1;
    }
  }

  /** Only counts changed, and each survivor's slack is what it was, the argument's one less. */
  ghost predicate Conserved(objs: Objects, after: Objects, id: HeapId) {
    && after.Keys <= objs.Keys
    && forall x :: x in after ==>
      && Slack(after, x) == Slack(objs, x) - (if x == id then 1 else 0)
      && after[x] == objs[x].(refCount := after[x].refCount)
  }

  lemma ConservedThroughRemoval(objs: Objects, held: multiset<HeapId>, id: HeapId, after: Objects)
    requires Counted(objs, held + multiset{id}) && objs[id].refCount <= 1
    requires Conserved(objs - {id}, after, Child(objs[id].data))
    ensures Conserved(objs, after, id)
  {
    RemoveCounted(objs, held, id);
  }

  /**
   Conservation: for every object that survives a release, except the one
   released, the count beyond the owned links is what it was; the argument's
   drops by exactly one. Nothing else about a survivor changes.
   */
  lemma {:induction false} ReleaseConserves(objs: Objects, held: multiset<HeapId>, id: HeapId)
    requires Counted(objs, held + multiset{id})
    ensures Conserved(objs, Release(objs, id), id)
    decreases |objs|
  {
    assert id in held + multiset{id};
    if objs[id].refCount <= 1 && !IsPermanent(objs[id].data) {
      var c := Child(objs[id].data);
      assert Release(objs, id) == Release(objs - {id}, c);
      RemoveCounted(objs, held, id);
      if c != NIL {
        Shrinks(objs, id);
        ReleaseConserves(objs - {id}, held, c);
      }
      ConservedThroughRemoval(objs, held, id, Release(objs, id));
    } else {
      assert (held + multiset{id})[id] >= 1;
      LoweredConserves(objs, held, id, Release(objs, id));
    }
  }

  lemma LoweredConserves(objs: Objects, held: multiset<HeapId>, id: HeapId, after: Objects)
    requires Counted(objs, held + multiset{id}) && objs[id].refCount >= 1
    requires after == objs[id := objs[id].(refCount := objs[id].refCount - 1)]
    ensures Conserved(objs, after, id)
  {
    LowerCounted(objs, held, id);
  }

  /** A chain of owned links from `id` to `x` through dying objects only. */
  ghost predicate DyingChain(objs: Objects, p: seq<HeapId>, id: HeapId, x: HeapId) {
    && p != [] && p[0] == id && p[|p| - 1] == x
    && (forall i :: 0 <= i < |p| ==> Live(objs, p[i]) && objs[p[i]].refCount <= 1 && !IsPermanent(objs[p[i]].data))
    && forall i :: 0 < i < |p| ==> Owns(objs[p[i - 1]].data, p[i])
  }

  ghost predicate Doomed(objs: Objects, id: HeapId, x: HeapId) {
    exists p :: DyingChain(objs, p, id, x)
  }

  /** A chain can be cut so that its first object does not come back. */
  lemma {:induction false} ChainWithoutReturn(objs: Objects, p: seq<HeapId>, id: HeapId, x: HeapId)
      returns (q: seq<HeapId>)
    requires DyingChain(objs, p, id, x)
    ensures DyingChain(objs, q, id, x) && id !in q[1..]
    decreases |p|
  {
    if id in p[1..] {
      var i :| 0 <= i < |p[1..]| && p[1..][i] == id;
      var r := p[i + 1..];
      assert forall k :: 0 <= k < |r| ==> r[k] == p[i + 1 + k];
      q := ChainWithoutReturn(objs, r, id, x);
    } else {
      q := p;
    }
  }

  lemma DoomedStep(objs: Objects, id: HeapId, x: HeapId)
    requires Live(objs, id) && objs[id].refCount <= 1 && !IsPermanent(objs[id].data)
    ensures Doomed(objs, id, x) <==> x == id || Doomed(objs - {id}, Child(objs[id].data), x)
  {
    var left, c := objs - {id}, Child(objs[id].data);
    if Doomed(objs, id, x) && x != id {
      var p :| DyingChain(objs, p, id, x);
      var q := ChainWithoutReturn(objs, p, id, x);
      ChainShortened(objs, q, id, x);
    }
    if x == id {
      assert DyingChain(objs, [id], id, x);
    } else if Doomed(left, c, x) {
      var r :| DyingChain(left, r, c, x);
      ChainLengthened(objs, r, id, x);
    }
  }

  lemma ChainShortened(objs: Objects, q: seq<HeapId>, id: HeapId, x: HeapId)
    requires DyingChain(objs, q, id, x) && id !in q[1..] && x != id
    ensures DyingChain(objs - {id}, q[1..], Child(objs[id].data), x)
  {
    var r := q[1..];
    assert forall k :: 0 <= k < |r| ==> r[k] in r && r[k] == q[k + 1];
  }

  lemma ChainLengthened(objs: Objects, r: seq<HeapId>, id: HeapId, x: HeapId)
    requires Live(objs, id) && objs[id].refCount <= 1 && !IsPermanent(objs[id].data)
    requires DyingChain(objs - {id}, r, Child(objs[id].data), x)
    ensures DyingChain(objs, [id] + r, id, x)
  {
    var left := objs - {id};
    var q := [id] + r;
    forall i | 0 < i < |q| ensures Owns(objs[q[i - 1]].data, q[i]) {
      assert i > 1 ==> Owns(left[r[i - 2]].data, r[i - 1]);
    }
  }

  /** A release frees exactly the maximal owned chain of count-one, non-permanent objects. */
  lemma {:induction false} ReleaseFreesChain(objs: Objects, id: HeapId)
    ensures forall x :: x in objs && x !in Release(objs, id) <==> Doomed(objs, id, x)
    decreases |objs|
  {
    if Live(objs, id) && objs[id].refCount <= 1 && !IsPermanent(objs[id].data) {
      Shrinks(objs, id);
      var left, c := objs - {id}, Child(objs[id].data);
      ReleaseFreesChain(left, c);
      ReleaseKeepsContents(left, c);
      forall x ensures x in objs && x !in Release(objs, id) <==> Doomed(objs, id, x) {
        DoomedStep(objs, id, x);
      }
    } else {
      forall x, p ensures !DyingChain(objs, p, id, x) {
      }
    }
  }

  /** What a release leaves has the contents it had. */
  lemma {:induction false} ReleaseKeepsContents(objs: Objects, id: HeapId)
    ensures Release(objs, id).Keys <= objs.Keys
    ensures forall x :: x in Release(objs, id) ==> Release(objs, id)[x].data == objs[x].data
    decreases |objs|
  {
    if Live(objs, id) && objs[id].refCount <= 1 && !IsPermanent(objs[id].data) {
      Shrinks(objs, id);
      ReleaseKeepsContents(objs - {id}, Child(objs[id].data));
    }
  }

  // --- Runs ---

  datatype HeapState = HeapState(objs: Objects, nextId: HeapId, held: multiset<HeapId>)

  predicate Initial(s: HeapState) {
    s == HeapState(map[], HEAP_ID_BASE, multiset{})
  }

  /**
   What callers may do: each operation consumes or creates held references as the
   opcodes do. A reference is abandoned when the last copy of its id goes without
   `dec_ref`: the one an allocation made, once `move_ptr_to_dst` has counted its
   own, and those in a frame that returns.
   */
  datatype Action =
    | AllocObject(typeId: nat, trace: Option<TraceMaps.TraceMap>, data: HeapData)
    | Acquire(id: HeapId)
    | Drop(id: HeapId)
    | Abandon(id: HeapId)
    | Mutate(id: HeapId, data: HeapData)
    | Gc(roots: Roots)

  /** An action a well-behaved caller can take. */
  ghost predicate Allowed(s: HeapState, a: Action) {
    match a
    case AllocObject(_, _, data) => forall c :: Owns(data, c) ==> c in s.held
    case Acquire(id) => Live(s.objs, id)
    case Drop(id) => id in s.held
    case Abandon(id) => id in s.held
    case Mutate(id, data) =>
      && id in s.objs
      && (forall c :: Owns(data, c) <==> Owns(s.objs[id].data, c))
      && IsPermanent(data) == IsPermanent(s.objs[id].data)
    case Gc(roots) => forall h :: h in s.held ==> h in Survivors(s.objs, AllRoots(roots, s.objs))
  }

  ghost function Perform(s: HeapState, a: Action): HeapState
    requires Allowed(s, a)
  {
    match a
    case AllocObject(typeId, trace, data) =>
      HeapState(s.objs[s.nextId := HeapObject(1, typeId, trace, data)], s.nextId + 1,
                (if Child(data) == NIL then s.held else s.held - multiset{Child(data)}) + multiset{s.nextId})
    case Acquire(id) =>
      HeapState(s.objs[id := s.objs[id].(refCount := s.objs[id].refCount + 1)], s.nextId, s.held + multiset{id})
    case Drop(id) => HeapState(Release(s.objs, id), s.nextId, s.held - multiset{id})
    case Abandon(id) => s.(held := s.held - multiset{id})
    case Mutate(id, data) => s.(objs := s.objs[id := s.objs[id].(data := data)])
    case Gc(roots) => s.(objs := Survivors(s.objs, AllRoots(roots, s.objs)))
  }

  /** A reference is given up by dropping or abandoning it, or to a new object that owns it. */
  predicate GivesUp(a: Action, x: HeapId) {
    || (a.Drop? && a.id == x)
    || (a.Abandon? && a.id == x)
    || (a.AllocObject? && Owns(a.data, x))
  }

  predicate Gains(s: HeapState, a: Action, x: HeapId) {
    (a.Acquire? && a.id == x) || (a.AllocObject? && x == s.nextId)
  }

  lemma HeldAfterAlloc(held: multiset<HeapId>, id: HeapId, data: HeapData, x: HeapId)
    requires forall c :: Owns(data, c) ==> c in held
    ensures var rest := if Child(data) == NIL then held else held - multiset{Child(data)};
      (rest + multiset{id})[x] + (if Owns(data, x) then 1 else 0) == held[x] + (if x == id then 1 else 0)
  {
    assert Owns(data, x) ==> x in held && x == Child(data);
  }

  lemma HeldExactly(s: HeapState, a: Action, x: HeapId)
    requires Allowed(s, a)
    ensures Perform(s, a).held[x] + (if GivesUp(a, x) then 1 else 0) == s.held[x] + (if Gains(s, a, x) then 1 else 0)
  {
    match a
    case AllocObject(_, _, data) => HeldAfterAlloc(s.held, s.nextId, data, x);
    case _ =>
  }

  /** What an action leaves of the objects it does not free. */
  lemma PerformExactly(s: HeapState, a: Action, x: HeapId)
    requires Allowed(s, a) && x in Perform(s, a).objs
    ensures var was, now := s.objs, Perform(s, a).objs;
      match a
      case AllocObject(typeId, trace, data) =>
        if x == s.nextId then now[x] == HeapObject(1, typeId, trace, data) else x in was && now[x] == was[x]
      case Acquire(id) => x in was && now[x] == was[x].(refCount := was[x].refCount + if x == id then 1 else 0)
      case Drop(id) => x in was && now[x].data == was[x].data
      case Abandon(_) => x in was && now[x] == was[x]
      case Mutate(id, data) => x in was && now[x] == if x == id then was[x].(data := data) else was[x]
      case Gc(_) => x in was && now[x] == was[x]
  {
    match a
    case Drop(id) => ReleaseKeepsContents(s.objs, id);
    case _ =>
  }

  /** Each action is an operation of the heap, or of the collector on it; abandoning a reference touches neither. */
  method Carry(heap: Heap, a: Action, ghost s: HeapState)
    requires Allowed(s, a) && heap.objects == s.objs && heap.nextId == s.nextId
    modifies heap
    ensures heap.objects == Perform(s, a).objs && heap.nextId == Perform(s, a).nextId
  {
    match a
    case AllocObject(typeId, trace, data) => var id := heap.AllocTyped(typeId, data, trace);
    case Acquire(id) => heap.IncRef(id);
    case Drop(id) => heap.DecRef(id);
    case Abandon(_) =>
    case Mutate(id, data) => heap.objects := heap.objects[id := heap.objects[id].(data := data)];
    case Gc(roots) => Collector.Collect(heap, roots);
  }

  ghost predicate Sound(s: HeapState) {
    && Counted(s.objs, s.held)
    && NIL < s.nextId
    && forall id :: id in s.objs ==> id < s.nextId
  }

  lemma AllocDegrees(objs: Objects, id: HeapId, o: HeapObject, x: HeapId)
    requires id !in objs && NoDangling(objs) && id != NIL
    ensures InDegree(objs[id := o], x) == InDegree(objs, x) + (if Owns(o.data, x) then 1 else 0)
    ensures InDegree(objs, id) == 0
  {
    if Owns(o.data, x) {
      assert Owners(objs[id := o], x) == Owners(objs, x) + {id};
    } else {
      assert Owners(objs[id := o], x) == Owners(objs, x);
    }
    assert Owners(objs, id) == {};
  }

  lemma AllocKeeps(s: HeapState, typeId: nat, trace: Option<TraceMaps.TraceMap>, data: HeapData)
    requires Sound(s) && Allowed(s, AllocObject(typeId, trace, data))
    ensures Sound(Perform(s, AllocObject(typeId, trace, data)))
  {
    var t := Perform(s, AllocObject(typeId, trace, data));
    var c := Child(data);
    assert s.held[s.nextId] == 0;
    forall x | x in t.objs ensures t.objs[x].refCount >= InDegree(t.objs, x) + t.held[x] {
      AllocDegrees(s.objs, s.nextId, t.objs[s.nextId], x);
    }
  }

  lemma AcquireKeeps(s: HeapState, id: HeapId)
    requires Sound(s) && Live(s.objs, id)
    ensures Sound(Perform(s, Acquire(id)))
  {
    var t := Perform(s, Acquire(id));
    forall x | x in t.objs ensures t.objs[x].refCount >= InDegree(t.objs, x) + t.held[x] {
      assert Owners(t.objs, x) == Owners(s.objs, x);
    }
  }

  lemma MutateKeeps(s: HeapState, id: HeapId, data: HeapData)
    requires Sound(s) && Allowed(s, Mutate(id, data))
    ensures Sound(Perform(s, Mutate(id, data)))
  {
    var t := Perform(s, Mutate(id, data));
    forall x | x in t.objs ensures t.objs[x].refCount >= InDegree(t.objs, x) + t.held[x] {
      assert Owners(t.objs, x) == Owners(s.objs, x);
    }
  }

  /** A collection frees whole cycles without disturbing what the counts say of the rest. */
  lemma CollectKeeps(s: HeapState, roots: Roots)
    requires Sound(s) && Allowed(s, Gc(roots))
    ensures Sound(Perform(s, Gc(roots)))
  {
    var all := AllRoots(roots, s.objs);
    var left := Survivors(s.objs, all);
    forall x, c | x in left && Owns(left[x].data, c) ensures c in left {
      OwnedSurvives(s.objs, all, x, c);
    }
    forall x | x in left ensures InDegree(left, x) <= InDegree(s.objs, x) {
      CardinalityMono(Owners(left, x), Owners(s.objs, x));
    }
  }

  /** What a survivor owns is reached through it. */
  lemma OwnedSurvives(objs: Objects, roots: set<HeapId>, x: HeapId, c: HeapId)
    requires NIL !in objs && NoDangling(objs) && x in Survivors(objs, roots) && Owns(objs[x].data, c)
    ensures c in Survivors(objs, roots)
  {
    assert c in Edges(objs[x], objs);
    StepReachable(objs, roots, x, c);
  }

  lemma CardinalityMono(a: set<HeapId>, b: set<HeapId>)
    requires a <= b
    ensures |a| <= |b|
  {
    assert b == a + (b - a);
    assert |a + (b - a)| == |a| + |b - a|;
  }

  lemma PerformKeeps(s: HeapState, a: Action)
    requires Sound(s) && Allowed(s, a)
    ensures Sound(Perform(s, a))
  {
    match a
    case AllocObject(typeId, trace, data) => AllocKeeps(s, typeId, trace, data);
    case Acquire(id) => AcquireKeeps(s, id);
    case Drop(id) =>
      assert s.held == (s.held - multiset{id}) + multiset{id};
      ReleaseKeepsCounted(s.objs, s.held - multiset{id}, id);
      ReleaseKeepsContents(s.objs, id);
    case Abandon(id) =>
      assert forall h :: h in s.held - multiset{id} ==> h in s.held;
    case Mutate(id, data) => MutateKeeps(s, id, data);
    case Gc(roots) => CollectKeeps(s, roots);
  }

  /** A run of the heap: each state follows from the one before by some allowed action. */
  ghost predicate IsRun(states: seq<HeapState>, actions: seq<Action>) {
    && |states| == |actions| + 1
    && Initial(states[0])
    && forall i {:trigger actions[i]} :: 0 <= i < |actions| ==>
      Allowed(states[i], actions[i]) && states[i + 1] == Perform(states[i], actions[i])
  }

  /** In every run, every count covers the links and held references to its object, and nothing dangles. */
  lemma {:induction false} RunsStaySound(states: seq<HeapState>, actions: seq<Action>, i: nat)
    requires IsRun(states, actions) && i < |states|
    ensures Sound(states[i])
  {
    if i == 0 {
      StartsSound(states[0]);
    } else {
      RunsStaySound(states, actions, i - 1);
      StepSound(states, actions, i - 1);
    }
  }

  lemma StepSound(states: seq<HeapState>, actions: seq<Action>, i: nat)
    requires IsRun(states, actions) && i < |actions| && Sound(states[i])
    ensures Sound(states[i + 1])
  {
    var before, after := states[i], states[i + 1];
    assert Allowed(before, actions[i]) && after == Perform(before, actions[i]);
    PerformKeeps(before, actions[i]);
  }

  lemma StartsSound(s: HeapState)
    requires Initial(s)
    ensures Sound(s)
  {
    assert forall x :: Owners(map[], x) == {};
  }

  /** Each state follows from the one before by abandoning one reference. */
  ghost predicate Abandons(states: seq<HeapState>, ids: seq<HeapId>) {
    && |states| == |ids| + 1
    && forall i, j :: 0 <= i < |ids| && j == i + 1 ==> Abandoned(states[i], ids[i], states[j])
  }

  ghost predicate Abandoned(s: HeapState, id: HeapId, t: HeapState) {
    Allowed(s, Abandon(id)) && t == Perform(s, Abandon(id))
  }

  /** The references in `held` to ids in `kept`. */
  ghost predicate HeldWithin(held: multiset<HeapId>, kept: set<HeapId>, left: multiset<HeapId>) {
    forall h :: left[h] == if h in kept then held[h] else 0
  }

  lemma {:induction false} AbandonRest(s: HeapState, kept: set<HeapId>)
      returns (states: seq<HeapState>, ids: seq<HeapId>)
    ensures Abandons(states, ids) && states[0] == s
    ensures states[|ids|] == s.(held := states[|ids|].held) && HeldWithin(s.held, kept, states[|ids|].held)
    decreases |s.held|
  {
    if h :| h in s.held && h !in kept {
      var t := s.(held := s.held - multiset{h});
      assert t.held + multiset{h} == s.held;
      assert Abandoned(s, h, t);
      var rest, more := AbandonRest(t, kept);
      states, ids := [s] + rest, [h] + more;
      assert states[|ids|] == rest[|more|];
    } else {
      states, ids := [s], [];
    }
  }

  /**
   The collector can run in any state, from any roots: abandoning the held
   references to what the roots do not reach, and no other, is all it takes.
   */
  lemma AnyCollectionRuns(s: HeapState, roots: Roots) returns (states: seq<HeapState>, ids: seq<HeapId>)
    requires Sound(s)
    ensures Abandons(states, ids) && states[0] == s
    ensures var last := states[|ids|]; var left := Survivors(s.objs, AllRoots(roots, s.objs));
      && last == s.(held := last.held) && HeldWithin(s.held, left.Keys, last.held)
      && Allowed(last, Gc(roots)) && Sound(Perform(last, Gc(roots)))
      && Perform(last, Gc(roots)).objs == left
  {
    states, ids := AbandonRest(s, Survivors(s.objs, AllRoots(roots, s.objs)).Keys);
    var last := states[|ids|];
    FewerHeld(s, last);
    PerformKeeps(last, Gc(roots));
  }

  lemma FewerHeld(s: HeapState, t: HeapState)
    requires Sound(s) && t == s.(held := t.held) && forall h :: t.held[h] <= s.held[h]
    ensures Sound(t)
  {
    assert forall h :: h in t.held ==> h in s.held;
  }

  /** What `new` leaves: the object's own reference abandoned, and the one in its destination held. */
  ghost function AfterNew(s: HeapState, typeId: nat, trace: Option<TraceMaps.TraceMap>, data: HeapData): HeapState
    requires Child(data) == NIL
  {
    var made := Perform(s, AllocObject(typeId, trace, data));
    s.(objs := made.objs[s.nextId := HeapObject(2, typeId, trace, data)], nextId := made.nextId,
       held := s.held + multiset{s.nextId})
  }

  /** `new` allocates, counts the pointer it stores, and leaves the allocation's own count behind. */
  lemma NewAbandons(s: HeapState, typeId: nat, trace: Option<TraceMaps.TraceMap>, data: HeapData)
    requires Sound(s) && Child(data) == NIL
    ensures var made := Perform(s, AllocObject(typeId, trace, data));
      && Live(made.objs, s.nextId)
      && var stored := Perform(made, Acquire(s.nextId));
      && s.nextId in stored.held
      && Perform(stored, Abandon(s.nextId)) == AfterNew(s, typeId, trace, data)
    ensures Sound(AfterNew(s, typeId, trace, data))
  {
    var make := AllocObject(typeId, trace, data);
    PerformKeeps(s, make);
    PerformKeeps(Perform(s, make), Acquire(s.nextId));
    PerformKeeps(Perform(Perform(s, make), Acquire(s.nextId)), Abandon(s.nextId));
    assert s.held + multiset{s.nextId} + multiset{s.nextId} - multiset{s.nextId} == s.held + multiset{s.nextId};
  }

  /** And the state once the pointer in that destination has been dropped. */
  ghost function AfterNewDropped(s: HeapState, typeId: nat, trace: Option<TraceMaps.TraceMap>,
                                 data: HeapData): HeapState
  {
    s.(objs := s.objs[s.nextId := HeapObject(1, typeId, trace, data)], nextId := s.nextId + 1)
  }

  lemma NewDropped(s: HeapState, typeId: nat, trace: Option<TraceMaps.TraceMap>, data: HeapData)
    requires NIL < s.nextId && Child(data) == NIL
    ensures Allowed(AfterNew(s, typeId, trace, data), Drop(s.nextId))
    ensures Perform(AfterNew(s, typeId, trace, data), Drop(s.nextId)) == AfterNewDropped(s, typeId, trace, data)
  {
    var after := AfterNew(s, typeId, trace, data);
    assert s.nextId in after.held;
    assert s.held + multiset{s.nextId} - multiset{s.nextId} == s.held;
    assert Release(after.objs, s.nextId) == after.objs[s.nextId := HeapObject(1, typeId, trace, data)];
  }

  /**
   Counts alone never free what `new` made: with the last pointer to it dropped
   the object is still there, counted once and owned by nothing. A collection
   frees it, unless it is a module handle or some root still leads to it.
   */
  lemma NewNeedsCollector(s: HeapState, typeId: nat, trace: Option<TraceMaps.TraceMap>, data: HeapData, roots: Roots)
    requires Sound(s) && Child(data) == NIL
    ensures var after := AfterNew(s, typeId, trace, data);
      && Allowed(after, Drop(s.nextId))
      && var dropped := Perform(after, Drop(s.nextId));
      && dropped.held == s.held
      && Live(dropped.objs, s.nextId) && dropped.objs[s.nextId].refCount == 1
      && Owners(dropped.objs, s.nextId) == {}
      && (Allowed(dropped, Gc(roots)) ==>
        (s.nextId in Perform(dropped, Gc(roots)).objs <==>
          IsPermanent(data) || Reachable(dropped.objs, AllRoots(roots, dropped.objs), s.nextId)))
  {
    NewDropped(s, typeId, trace, data);
    NewUnowned(s, typeId, trace, data);
  }

  lemma NewUnowned(s: HeapState, typeId: nat, trace: Option<TraceMaps.TraceMap>, data: HeapData)
    requires Sound(s) && Child(data) == NIL
    ensures Owners(AfterNewDropped(s, typeId, trace, data).objs, s.nextId) == {}
  {
    assert s.nextId !in s.objs;
    forall x | x in s.objs ensures !Owns(s.objs[x].data, s.nextId) {
      assert NoDangling(s.objs);
    }
    forall x ensures x !in Owners(AfterNewDropped(s, typeId, trace, data).objs, s.nextId) {
    }
  }

  /** Owned links lead to older objects, so no chain of tails or slices ever closes on itself. */
  ghost predicate LinksDescend(objs: Objects) {
    forall id, c: HeapId :: id in objs && Owns(objs[id].data, c) ==> c < id
  }

  /** Objects that own what they owned, or are gone. */
  lemma FewerDescend(objs: Objects, after: Objects)
    requires LinksDescend(objs)
    requires forall x :: x in after ==> x in objs && Child(after[x].data) == Child(objs[x].data)
    ensures LinksDescend(after)
  {
    forall x, c: HeapId | x in after && Owns(after[x].data, c) ensures c < x {
      assert c == Child(objs[x].data) && Owns(objs[x].data, c);
    }
  }

  lemma NewDescends(objs: Objects, id: HeapId, o: HeapObject)
    requires LinksDescend(objs) && forall c: HeapId :: Owns(o.data, c) ==> c < id
    ensures LinksDescend(objs[id := o])
  {
  }

  lemma LinksKept(s: HeapState, a: Action)
    requires Sound(s) && LinksDescend(s.objs) && Allowed(s, a)
    ensures LinksDescend(Perform(s, a).objs)
  {
    match a
    case AllocObject(typeId, trace, data) =>
      assert forall c :: Owns(data, c) ==> c in s.objs;
      NewDescends(s.objs, s.nextId, HeapObject(1, typeId, trace, data));
    case Acquire(id) => FewerDescend(s.objs, Perform(s, a).objs);
    case Drop(id) =>
      ReleaseKeepsContents(s.objs, id);
      FewerDescend(s.objs, Release(s.objs, id));
    case Abandon(_) =>
    case Mutate(id, data) =>
      SameChild(data, s.objs[id].data);
      FewerDescend(s.objs, s.objs[id := s.objs[id].(data := data)]);
    case Gc(roots) => FewerDescend(s.objs, Perform(s, a).objs);
  }

  lemma SameChild(d: HeapData, e: HeapData)
    requires forall c :: Owns(d, c) <==> Owns(e, c)
    ensures Child(d) == Child(e)
  {
    assert Child(d) != NIL ==> Owns(e, Child(d));
  }

  lemma StepDescends(states: seq<HeapState>, actions: seq<Action>, i: nat)
    requires IsRun(states, actions) && i < |actions| && LinksDescend(states[i].objs)
    ensures LinksDescend(states[i + 1].objs)
  {
    RunsStaySound(states, actions, i);
    var before, after := states[i], states[i + 1];
    assert Allowed(before, actions[i]) && after == Perform(before, actions[i]);
    LinksKept(before, actions[i]);
  }

  lemma {:induction false} RunsDescend(states: seq<HeapState>, actions: seq<Action>, i: nat)
    requires IsRun(states, actions) && i < |states|
    ensures LinksDescend(states[i].objs)
  {
    if i > 0 {
      RunsDescend(states, actions, i - 1);
      StepDescends(states, actions, i - 1);
    }
  }

  /** In every run, slices lie over older arrays, which is what ends every walk along a chain of them. */
  lemma RunsKeepLinks(states: seq<HeapState>, actions: seq<Action>, i: nat)
    requires IsRun(states, actions) && i < |states|
    ensures LinksDescend(states[i].objs) && SlicesDescend(states[i].objs)
  {
    RunsDescend(states, actions, i);
    RunsStaySound(states, actions, i);
    SliceLinksDescend(states[i]);
  }

  lemma SliceLinksDescend(s: HeapState)
    requires Sound(s) && LinksDescend(s.objs)
    ensures SlicesDescend(s.objs)
  {
    forall id | id in s.objs && s.objs[id].data.ArraySlice? ensures s.objs[id].data.parent < id {
      assert s.objs[id].data.parent == NIL || Owns(s.objs[id].data, s.objs[id].data.parent);
    }
  }

  /** `cow_string` never changes a string someone else can see, and hands back one no one shares. */
  lemma CowStringPrivate(s: HeapState, id: HeapId)
    requires Sound(s) && id in s.held && s.objs[id].data.Str? && s.objs[id].refCount > 1
    ensures var after := Release(s.objs, id)[s.nextId := HeapObject(1, s.objs[id].typeId, None, s.objs[id].data)];
      && id in after && after[id].data == s.objs[id].data
      && after[s.nextId].refCount == 1
      && Counted(after, s.held - multiset{id} + multiset{s.nextId})
  {
    PerformKeeps(s, Drop(id));
    CopyCounted(Perform(s, Drop(id)), s.objs[id].typeId, s.objs[id].data);
    assert Release(s.objs, id)[id] == s.objs[id].(refCount := s.objs[id].refCount - 1);
  }

  lemma CopyCounted(s: HeapState, typeId: nat, data: HeapData)
    requires Sound(s) && Child(data) == NIL
    ensures Counted(s.objs[s.nextId := HeapObject(1, typeId, None, data)], s.held + multiset{s.nextId})
  {
    AllocKeeps(s, typeId, None, data);
  }
}
