/**
 Pipes in the descriptor table (filetab.rs). The ends of a pipe share one buffer
 and one count of open write ends; the table owns the handles.
 */
module Pipes {
  import opened Memory

  datatype Handle =
    | PipeReader(pipe: Pipe)
    | PipeWriter(pipe: Pipe)
    | HostFile(id: nat, duplicable: bool)

  datatype IoResult = Bytes(data: Buffer) | Wrote(n: nat) | WouldBlock | Unsupported | BadFd | HostIo

  /** `written` and `consumed` are everything that ever went in and came out. */
  class Pipe {
    var data: Buffer
    var writers: nat
    ghost var written: Buffer
    ghost var consumed: Buffer

    constructor ()
      ensures data == [] && writers == 1 && written == [] && consumed == []
    {
      data, writers, written, consumed := [], 1, [], [];
    }

    ghost predicate Conserves()
      reads this
    {
      written == consumed + data
    }

    /** Up to n bytes; none, with a buffer to fill, is the end of file. */
    method Read(n: nat) returns (r: IoResult)
      requires Conserves()
      modifies this`data, this`consumed
      ensures Conserves()
      ensures r == if n == 0 then Bytes([])
        else if old(data) != [] then Bytes(old(data)[..if n < |old(data)| then n else |old(data)|])
        else if writers == 0 then Bytes([]) else WouldBlock
      ensures old(data) == (if r.Bytes? then r.data else []) + data
      ensures consumed == old(consumed) + if r.Bytes? then r.data else []
    {
      if n == 0 {
        return Bytes([]);
      }
      if data != [] {
        var take := if n < |data| then n else |data|;
        r := Bytes(data[..take]);
        assert data == data[..take] + data[take..];
        consumed := consumed + data[..take];
        data := data[take..];
        return;
      }
      if writers == 0 {
        return Bytes([]);
      }
      return WouldBlock;
    }

    method Write(buf: Buffer)
      requires Conserves()
      modifies this`data, this`written
      ensures Conserves() && data == old(data) + buf && written == old(written) + buf
    {
      data := data + buf;
      written := written + buf;
    }
  }

  ghost function WriteEnds(files: map<int, Handle>, p: Pipe): set<int> {
    set fd | fd in files && files[fd] == PipeWriter(p)
  }

  /** One handle's worth of write end on `p`. */
  ghost function Weight(h: Handle, p: Pipe): nat {
    if h == PipeWriter(p) then 1 else 0
  }

  ghost function WeightAt(files: map<int, Handle>, fd: int, p: Pipe): nat {
    if fd in files then Weight(files[fd], p) else 0
  }

  lemma EndsInserted(files: map<int, Handle>, fd: int, h: Handle, p: Pipe)
    ensures |WriteEnds(files[fd := h], p)| + WeightAt(files, fd, p) == |WriteEnds(files, p)| + Weight(h, p)
  {
    var before, after := WriteEnds(files, p), WriteEnds(files[fd := h], p);
    assert after - {fd} == before - {fd};
    if fd in before {
      assert |before - {fd}| == |before| - 1;
    }
    if fd in after {
      assert |after - {fd}| == |after| - 1;
    }
  }

  lemma EndsRemoved(files: map<int, Handle>, fd: int, p: Pipe)
    ensures |WriteEnds(files - {fd}, p)| + WeightAt(files, fd, p) == |WriteEnds(files, p)|
  {
    var before, after := WriteEnds(files, p), WriteEnds(files - {fd}, p);
    assert after == before - {fd};
  }

  lemma LooseWeight(rest: multiset<Handle>, h: Handle, p: Pipe)
    ensures (rest + multiset{h})[PipeWriter(p)] == rest[PipeWriter(p)] + Weight(h, p)
  {
  }

  lemma LooseSplit(loose: multiset<Handle>, h: Handle)
    ensures loose + multiset{h} - multiset{h} == loose
  {
  }

  /** `saturating_sub(1)`. */
  function OneLess(n: nat): (r: nat)
    ensures n == (if n == 0 then r else r + 1)
  {
    if n == 0 then 0 else n - 1
  }

  const MAX_FD: int := 65536

  /** The owner list without a descriptor. */
  function WithoutOwner(owners: seq<(int, nat)>, fd: int): seq<(int, nat)> {
    if owners == [] then []
    else (if owners[0].0 != fd then [owners[0]] else []) + WithoutOwner(owners[1..], fd)
  }

  /** The records on either side of a point are kept or dropped by themselves, in order. */
  lemma {:induction false} WithoutOwnerSplits(a: seq<(int, nat)>, b: seq<(int, nat)>, fd: int)
    ensures WithoutOwner(a + b, fd) == WithoutOwner(a, fd) + WithoutOwner(b, fd)
  {
    if a == [] {
      assert a + b == b;
    } else {
      assert (a + b)[0] == a[0] && (a + b)[1..] == a[1..] + b;
      WithoutOwnerSplits(a[1..], b, fd);
    }
  }

  /** A record goes if and only if it is of that descriptor. */
  lemma WithoutOwnerOfOne(record: (int, nat), fd: int)
    ensures WithoutOwner([record], fd) == if record.0 == fd then [] else [record]
  {
  }

  predicate Cloneable(h: Handle) {
    h.HostFile? ==> h.duplicable
  }

  class FileTable {
    var files: map<int, Handle>
    var nextFd: int
    var owners: seq<(int, nat)>
    ghost var pipes: set<Pipe>

    constructor (stdin: nat, stdout: nat, stderr: nat)
      ensures Valid() && nextFd == 3 && owners == [] && pipes == {}
      ensures files == map[0 := HostFile(stdin, true), 1 := HostFile(stdout, true), 2 := HostFile(stderr, true)]
    {
      files := map[0 := HostFile(stdin, true), 1 := HostFile(stdout, true), 2 := HostFile(stderr, true)];
      nextFd, owners, pipes := 3, [], {};
    }

    ghost predicate Shaped()
      reads this
    {
      && nextFd >= 3
      && (forall fd :: fd in files ==> 0 <= fd < nextFd)
      && forall fd :: fd in files && !files[fd].HostFile? ==> files[fd].pipe in pipes
    }

    /** Each pipe counts the write ends in the table and those in `loose`, handles about to be stored or dropped. */
    ghost predicate Counts(loose: multiset<Handle>)
      reads this, pipes
    {
      forall p :: p in pipes ==> p.writers == |WriteEnds(files, p)| + loose[PipeWriter(p)]
    }

    ghost predicate Conserves()
      reads this, pipes
    {
      forall p :: p in pipes ==> p.Conserves()
    }

    /** What holds between any two calls. */
    ghost predicate Valid()
      reads this, pipes
    {
      Shaped() && Conserves() && Counts(multiset{})
    }

    twostate predicate SameBytes()
      reads this, pipes
    {
      && pipes == old(pipes)
      && forall p :: p in pipes ==>
        p.data == old(p.data) && p.written == old(p.written) && p.consumed == old(p.consumed)
    }

    /** Dropping a handle closes the write end it is, if it is one. */
    method DropHandle(h: Handle, ghost loose: multiset<Handle>)
      requires !h.HostFile? ==> h.pipe in pipes
      requires Shaped() && Counts(loose) && loose[h] >= 1
      modifies pipes
      ensures Shaped() && Counts(loose - multiset{h}) && SameBytes()
    {
      if h.PipeWriter? {
        h.pipe.writers := OneLess(h.pipe.writers);
      }
    }

    method RemoveEntry(fd: int, ghost loose: multiset<Handle>)
      requires Shaped() && Counts(loose)
      modifies this`files, pipes
      ensures Shaped() && Counts(loose) && SameBytes()
      ensures files == old(files) - {fd}
    {
      if fd in files {
        var h := files[fd];
        forall p | p in pipes ensures |WriteEnds(files - {fd}, p)| + Weight(h, p) == |WriteEnds(files, p)| {
          EndsRemoved(files, fd, p);
        }
        files := files - {fd};
        assert Counts(loose + multiset{h});
        DropHandle(h, loose + multiset{h});
        assert loose + multiset{h} - multiset{h} == loose;
      }
    }

    /** The map's own insertion: the handle that was there, if any, comes out. */
    method StoreEntry(fd: int, h: Handle, ghost rest: multiset<Handle>) returns (replaced: Option<Handle>)
      requires Shaped() && Counts(rest + multiset{h}) && 0 <= fd < nextFd
      requires !h.HostFile? ==> h.pipe in pipes
      modifies this`files
      ensures files == old(files)[fd := h]
      ensures replaced == if fd in old(files) then Some(old(files)[fd]) else None
      ensures Shaped() && Counts(if replaced.Some? then rest + multiset{replaced.value} else rest)
    {
      replaced := if fd in files then Some(files[fd]) else None;
      ghost var was := files;
      files := files[fd := h];
      CountsAfterInsert(was, fd, h, rest, if fd in was then rest + multiset{was[fd]} else rest);
    }

    /** Store a handle, dropping the one it replaces. */
    method InsertEntry(fd: int, h: Handle, ghost rest: multiset<Handle>)
      requires Shaped() && Counts(rest + multiset{h}) && 0 <= fd < nextFd
      requires !h.HostFile? ==> h.pipe in pipes
      modifies this`files, pipes
      ensures Shaped() && Counts(rest) && SameBytes()
      ensures files == old(files)[fd := h]
    {
      var replaced := StoreEntry(fd, h, rest);
      if replaced.Some? {
        DropHandle(replaced.value, rest + multiset{replaced.value});
        LooseSplit(rest, replaced.value);
      }
    }

    /** Returns the read end's descriptor and the write end's. */
    method Pipe() returns (readFd: int, writeFd: int)
      requires Valid()
      modifies this`files, this`nextFd, this`pipes
      ensures Valid()
      ensures readFd == old(nextFd) && writeFd == readFd + 1 && nextFd == writeFd + 1
      ensures readFd !in old(files) && writeFd !in old(files) && owners == old(owners)
      ensures exists p: Pipe {:trigger PipeReader(p)} ::
        && fresh(p) && p.data == [] && pipes == old(pipes) + {p}
        && files == old(files)[readFd := PipeReader(p)][writeFd := PipeWriter(p)]
    {
      var p := new Pipe();
      readFd := nextFd;
      nextFd := nextFd + 1;
      writeFd := nextFd;
      nextFd := nextFd + 1;
      ghost var was := files;
      files := files[readFd := PipeReader(p)];
      files := files[writeFd := PipeWriter(p)];
      pipes := pipes + {p};
      forall q | q in pipes ensures q.writers == |WriteEnds(files, q)| + multiset{}[PipeWriter(q)] {
        EndsInserted(was, readFd, PipeReader(p), q);
        EndsInserted(was[readFd := PipeReader(p)], writeFd, PipeWriter(p), q);
        if q == p {
          assert WriteEnds(was, p) == {};
        }
      }
    }

    method Read(fd: int, n: nat) returns (r: IoResult)
      requires Valid()
      modifies pipes
      ensures Valid()
      ensures r == BadFd <==> fd !in files
      ensures fd in files && files[fd].PipeWriter? ==> r == Unsupported
      ensures fd in files && files[fd].PipeReader? ==> var p := files[fd].pipe;
        && (r.Bytes? || r.WouldBlock?)
        && (r.Bytes? ==> |r.data| <= n && old(p.data) == r.data + p.data && p.consumed == old(p.consumed) + r.data)
        && (n > 0 ==> (r == Bytes([]) <==> old(p.data) == [] && WriteEnds(files, p) == {}))
        && (r.WouldBlock? ==> n > 0 && old(p.data) == [] && WriteEnds(files, p) != {} && p.consumed == old(p.consumed))
      ensures forall p :: p in pipes && !(fd in files && files[fd] == PipeReader(p)) ==>
        p.data == old(p.data) && p.consumed == old(p.consumed)
      ensures forall p :: p in pipes ==> p.written == old(p.written) && p.writers == old(p.writers)
    {
      if fd !in files {
        return BadFd;
      }
      match files[fd] {
        case PipeReader(p) =>
          assert p.writers == |WriteEnds(files, p)|;
          r := p.Read(n);
        case PipeWriter(_) => return Unsupported;
        case HostFile(_, _) => return HostIo;
      }
    }

    method Write(fd: int, buf: Buffer) returns (r: IoResult)
      requires Valid()
      modifies pipes
      ensures Valid()
      ensures r == BadFd <==> fd !in files
      ensures fd in files && files[fd].PipeReader? ==> r == Unsupported
      ensures fd in files && files[fd].PipeWriter? ==> var p := files[fd].pipe;
        r == Wrote(|buf|) && p.data == old(p.data) + buf && p.written == old(p.written) + buf
      ensures forall p :: p in pipes && !(fd in files && files[fd] == PipeWriter(p)) ==>
        p.data == old(p.data) && p.written == old(p.written)
      ensures forall p :: p in pipes ==> p.consumed == old(p.consumed) && p.writers == old(p.writers)
    {
      if fd !in files {
        return BadFd;
      }
      match files[fd] {
        case PipeReader(_) => return Unsupported;
        case PipeWriter(p) =>
          p.Write(buf);
          return Wrote(|buf|);
        case HostFile(_, _) => return HostIo;
      }
    }

    /** The three standard descriptors stay, whatever they hold. */
    method Close(fd: int)
      requires Valid()
      modifies this`files, this`owners, pipes
      ensures Valid() && SameBytes()
      ensures files == if fd > 2 then old(files) - {fd} else old(files)
      ensures owners == WithoutOwner(old(owners), fd)
    {
      CloseEntry(fd, multiset{});
    }

    method CloseEntry(fd: int, ghost loose: multiset<Handle>)
      requires Shaped() && Counts(loose)
      modifies this`files, this`owners, pipes
      ensures Shaped() && Counts(loose) && SameBytes()
      ensures files == if fd > 2 then old(files) - {fd} else old(files)
      ensures owners == WithoutOwner(old(owners), fd)
    {
      if fd > 2 {
        RemoveEntry(fd, loose);
      }
      owners := WithoutOwner(owners, fd);
    }

    /** Duplicate a handle: the copy of a write end is one more write end. */
    method TryClone(h: Handle) returns (copy: Option<Handle>)
      requires Shaped() && Counts(multiset{}) && (!h.HostFile? ==> h.pipe in pipes)
      modifies pipes
      ensures copy == if Cloneable(h) then Some(h) else None
      ensures Shaped() && SameBytes() && Counts(if Cloneable(h) then multiset{h} else multiset{})
    {
      match h {
        case PipeReader(_) =>
        case PipeWriter(p) => p.writers := p.writers + 1;
        case HostFile(_, duplicable) =>
          if !duplicable {
            return None;
          }
      }
      return Some(h);
    }

    /**
     Make `newFd`, or a fresh descriptor when it is negative, another name for
     what `oldFd` holds; -1 when it cannot.
     */
    method Dup(oldFd: int, newFd: int) returns (target: int)
      requires Valid()
      modifies this`files, this`nextFd, this`owners, pipes
      ensures Valid() && SameBytes()
      ensures target == if newFd > MAX_FD || oldFd !in old(files) || !Cloneable(old(files)[oldFd]) then -1
        else if newFd < 0 then old(nextFd) else newFd
      ensures target < 0 ==> files == old(files) && nextFd == old(nextFd) && owners == old(owners)
      ensures target >= 0 ==> files == old(files)[target := old(files)[oldFd]]
      ensures target >= 0 ==> nextFd == if target >= old(nextFd) then target + 1 else old(nextFd)
      ensures target >= 0 ==> owners == if newFd < 0 then old(owners) else WithoutOwner(old(owners), newFd)
    {
      if newFd > MAX_FD {
        return -1;
      }
      if oldFd !in files {
        return -1;
      }
      var inner := TryClone(files[oldFd]);
      if inner.None? {
        return -1;
      }
      target := MakeRoom(newFd, multiset{inner.value});
      assert multiset{} + multiset{inner.value} == multiset{inner.value};
      InsertEntry(target, inner.value, multiset{});
    }

    /** The descriptor for a copy: `newFd`, closed first, or a fresh one. */
    method MakeRoom(newFd: int, ghost loose: multiset<Handle>) returns (target: int)
      requires Shaped() && Counts(loose)
      modifies this`files, this`nextFd, this`owners, pipes
      ensures Shaped() && Counts(loose) && SameBytes()
      ensures target == (if newFd < 0 then old(nextFd) else newFd) && 0 <= target < nextFd
      ensures nextFd == if target >= old(nextFd) then target + 1 else old(nextFd)
      ensures files == if newFd > 2 then old(files) - {newFd} else old(files)
      ensures owners == if newFd < 0 then old(owners) else WithoutOwner(old(owners), newFd)
    {
      if newFd < 0 {
        target := nextFd;
        nextFd := nextFd + 1;
      } else {
        CloseEntry(newFd, loose);
        if newFd >= nextFd {
          nextFd := newFd + 1;
        }
        target := newFd;
      }
    }

    method SetOwner(fd: int, owner: nat)
      modifies this`owners
      ensures owners == WithoutOwner(old(owners), fd) + [(fd, owner)]
    {
      owners := WithoutOwner(owners, fd);
      owners := owners + [(fd, owner)];
    }

    /** Opening anything else takes the next descriptor. */
    method InsertHost(id: nat, duplicable: bool) returns (fd: int)
      requires Valid()
      modifies this`files, this`nextFd
      ensures Valid() && fd == old(nextFd) && nextFd == fd + 1 && fd !in old(files)
      ensures files == old(files)[fd := HostFile(id, duplicable)]
    {
      fd := nextFd;
      nextFd := nextFd + 1;
      forall p | p in pipes ensures |WriteEnds(files[fd := HostFile(id, duplicable)], p)| == |WriteEnds(files, p)| {
        EndsInserted(files, fd, HostFile(id, duplicable), p);
      }
      files := files[fd := HostFile(id, duplicable)];
    }

    lemma CountsAfterInsert(was: map<int, Handle>, fd: int, h: Handle, rest: multiset<Handle>, loose: multiset<Handle>)
      requires files == was[fd := h]
      requires loose == if fd in was then rest + multiset{was[fd]} else rest
      requires forall p :: p in pipes ==> p.writers == |WriteEnds(was, p)| + (rest + multiset{h})[PipeWriter(p)]
      ensures Counts(loose)
    {
      forall p | p in pipes ensures p.writers == |WriteEnds(files, p)| + loose[PipeWriter(p)] {
        EndsInserted(was, fd, h, p);
        LooseWeight(rest, h, p);
        if fd in was {
          LooseWeight(rest, was[fd], p);
        }
      }
    }
  }
}
