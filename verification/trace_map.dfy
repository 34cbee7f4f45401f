/**
 Pointer maps of typed heap objects (`TraceMap` in heap.rs).

 A type descriptor marks, most significant bit first, which words of one element
 hold pointers; an array repeats the map every `stride` bytes.
 */
module TraceMaps {
  import opened Arith
  import opened Memory

  datatype TraceMap = TraceMap(offsets: seq<nat>, stride: nat)

  ghost predicate Increasing(xs: seq<nat>) {
    forall i, j :: 0 <= i < j < |xs| ==> xs[i] < xs[j]
  }

  /** Bit `bit` of a byte, counted from the most significant. */
  predicate BitSet(b: Byte, bit: nat)
    requires bit < 8
  {
    b / [128, 64, 32, 16, 8, 4, 2, 1][bit] % 2 == 1
  }

  /** The bits are those of the byte's binary notation, the first of them the most significant. */
  lemma BitsMakeByte(b: Byte)
    ensures b == Bit(b, 0) * 128 + Bit(b, 1) * 64 + Bit(b, 2) * 32 + Bit(b, 3) * 16
               + Bit(b, 4) * 8 + Bit(b, 5) * 4 + Bit(b, 6) * 2 + Bit(b, 7)
  {
    BitIs(b, 0, 128, 0);
    BitIs(b, 1, 64, b / 128);
    BitIs(b, 2, 32, b / 64);
    BitIs(b, 3, 16, b / 32);
    BitIs(b, 4, 8, b / 16);
    BitIs(b, 5, 4, b / 8);
    BitIs(b, 6, 2, b / 4);
    BitIs(b, 7, 1, b / 2);
  }

  /** One more bit of the quotient by a power of two half as large. */
  lemma BitIs(b: Byte, bit: nat, power: nat, above: nat)
    requires bit < 8 && power == [128, 64, 32, 16, 8, 4, 2, 1][bit] && above == b / (2 * power)
    ensures b / power == 2 * above + Bit(b, bit)
  {
  }

  function Bit(b: Byte, bit: nat): nat
    requires bit < 8
  {
    if BitSet(b, bit) then 1 else 0
  }

  /** The word at byte offset `o` is marked, and lies inside one element of `stride` bytes. */
  predicate Marked(mapBytes: seq<Byte>, stride: nat, o: nat) {
    && o % 4 == 0
    && o / 32 < |mapBytes|
    && BitSet(mapBytes[o / 32], o / 4 % 8)
    && o + 4 <= stride
  }

  /** What `TraceMap::new` promises, whatever its descriptor. */
  ghost predicate WellFormed(m: TraceMap) {
    && Increasing(m.offsets)
    && forall o :: o in m.offsets ==> o % 4 == 0 && o + 4 <= m.stride
  }

  ghost predicate Describes(m: TraceMap, mapBytes: seq<Byte>, stride: nat) {
    && WellFormed(m)
    && m.stride == stride
    && forall o: nat :: o in m.offsets <==> Marked(mapBytes, stride, o)
  }

  /** The offsets are exactly the marked words below byte offset `upTo`. */
  ghost predicate Collected(offsets: seq<nat>, mapBytes: seq<Byte>, stride: nat, upTo: nat) {
    && (forall i, j :: 0 <= i < j < |offsets| ==> offsets[i] < offsets[j])
    && forall o: nat :: o in offsets <==> o < upTo && Marked(mapBytes, stride, o)
  }

  /** Of the four bytes from a word's start, only the first can be a marked offset. */
  lemma MarkedWord(mapBytes: seq<Byte>, stride: nat, byteIdx: nat, bit: nat, o: nat)
    requires byteIdx < |mapBytes| && bit < 8
    requires 32 * byteIdx + 4 * bit <= o < 32 * byteIdx + 4 * bit + 4
    ensures Marked(mapBytes, stride, o) <==>
      o == (byteIdx * 8 + bit) * 4 && BitSet(mapBytes[byteIdx], bit) && o + 4 <= stride
  {
    if o % 4 == 0 {
      assert o == 32 * byteIdx + 4 * bit;
      assert o / 4 == 8 * byteIdx + bit;
      assert o / 32 == byteIdx && o / 4 % 8 == bit;
    }
  }

  lemma VisitKeeps(offsets: seq<nat>, mapBytes: seq<Byte>, stride: nat, here: nat, found: bool, after: seq<nat>)
    requires Collected(offsets, mapBytes, stride, here)
    requires after == if found then offsets + [here] else offsets
    requires forall o: nat :: here <= o < here + 4 ==> (Marked(mapBytes, stride, o) <==> o == here && found)
    ensures Collected(after, mapBytes, stride, here + 4)
  {
    assert forall k :: 0 <= k < |offsets| ==> offsets[k] in offsets;
    assert forall o :: o in after <==> o in offsets || (found && o == here);
  }

  method New(mapBytes: seq<Byte>, stride: nat) returns (m: TraceMap)
    ensures Describes(m, mapBytes, stride)
  {
    var offsets: seq<nat> := [];
    for byteIdx := 0 to |mapBytes|
      invariant Collected(offsets, mapBytes, stride, 32 * byteIdx)
    {
      for bit := 0 to 8
        invariant Collected(offsets, mapBytes, stride, 32 * byteIdx + 4 * bit)
      {
        ghost var before := offsets;
        if BitSet(mapBytes[byteIdx], bit) {
          var offset := (byteIdx * 8 + bit) * 4;
          if offset + 4 <= stride {
            offsets := offsets + [offset];
          }
        }
        ghost var here := (byteIdx * 8 + bit) * 4;
        forall o: nat | here <= o < here + 4 {
          MarkedWord(mapBytes, stride, byteIdx, bit, o);
        }
        VisitKeeps(before, mapBytes, stride, here, BitSet(mapBytes[byteIdx], bit) && here + 4 <= stride, offsets);
      }
    }
    m := TraceMap(offsets, stride);
  }

  /** The offsets of one element placed at `base`, those inside the buffer. */
  function ElementOffsets(offsets: seq<nat>, base: nat, bufLen: nat): (r: seq<nat>)
    ensures forall x :: x in r <==> base <= x && x - base in offsets && x + 4 <= bufLen
  {
    if offsets == [] then []
    else
      var rest := ElementOffsets(offsets[1..], base, bufLen);
      assert offsets == [offsets[0]] + offsets[1..];
      if base + offsets[0] + 4 <= bufLen then [base + offsets[0]] + rest else rest
  }

  /** The pointer words of one element of the buffer. */
  function ElementAt(m: TraceMap, element: nat, bufLen: nat): seq<nat> {
    ElementOffsets(m.offsets, element * m.stride, bufLen)
  }

  function OffsetsFrom(m: TraceMap, element: nat, elements: nat, bufLen: nat): seq<nat>
    requires element <= elements
    decreases elements - element
  {
    if element == elements then []
    else ElementAt(m, element, bufLen) + OffsetsFrom(m, element + 1, elements, bufLen)
  }

  /** Elements of a buffer, a last partial one included. */
  function Elements(m: TraceMap, bufLen: nat): nat {
    if m.stride == 0 then 0 else (bufLen + m.stride - 1) / m.stride
  }

  function PointerOffsets(m: TraceMap, bufLen: nat): seq<nat> {
    OffsetsFrom(m, 0, Elements(m, bufLen), bufLen)
  }

  lemma {:induction false} ElementIncreasing(offsets: seq<nat>, base: nat, bufLen: nat)
    requires Increasing(offsets)
    ensures Increasing(ElementOffsets(offsets, base, bufLen))
  {
    if offsets != [] {
      ElementIncreasing(offsets[1..], base, bufLen);
      var rest := ElementOffsets(offsets[1..], base, bufLen);
      forall k | 0 <= k < |rest| ensures base + offsets[0] < rest[k] {
        assert rest[k] in rest;
        var j :| 0 <= j < |offsets[1..]| && offsets[1..][j] == rest[k] - base;
        assert offsets[j + 1] > offsets[0];
      }
    }
  }

  lemma ElementsApart(m: TraceMap, e: nat, f: nat, bufLen: nat, x: nat, y: nat)
    requires WellFormed(m) && e < f && x in ElementAt(m, e, bufLen) && y in ElementAt(m, f, bufLen)
    ensures x < y
  {
    MulLess(e, f, m.stride);
    assert x - e * m.stride in m.offsets;
  }

  lemma {:induction false} OffsetsFromMembers(m: TraceMap, element: nat, elements: nat, bufLen: nat)
    requires element <= elements
    ensures forall x :: x in OffsetsFrom(m, element, elements, bufLen) <==>
      exists e: nat :: element <= e < elements && x in ElementAt(m, e, bufLen)
    decreases elements - element
  {
    if element < elements {
      OffsetsFromMembers(m, element + 1, elements, bufLen);
    }
  }

  lemma {:induction false} OffsetsFromIncreasing(m: TraceMap, element: nat, elements: nat, bufLen: nat)
    requires WellFormed(m) && element <= elements
    ensures Increasing(OffsetsFrom(m, element, elements, bufLen))
    decreases elements - element
  {
    if element < elements {
      OffsetsFromIncreasing(m, element + 1, elements, bufLen);
      OffsetsFromMembers(m, element + 1, elements, bufLen);
      ElementIncreasing(m.offsets, element * m.stride, bufLen);
      var head := ElementAt(m, element, bufLen);
      var rest := OffsetsFrom(m, element + 1, elements, bufLen);
      forall i, j | 0 <= i < |head| && 0 <= j < |rest| ensures head[i] < rest[j] {
        assert head[i] in head && rest[j] in rest;
        var f: nat :| element + 1 <= f < elements && rest[j] in ElementAt(m, f, bufLen);
        ElementsApart(m, element, f, bufLen, head[i], rest[j]);
      }
    }
  }

  /** Byte `x` is byte `o` of element `e`. */
  predicate Placed(stride: nat, e: nat, o: nat, x: nat) {
    x == e * stride + o
  }

  lemma ElementMember(m: TraceMap, e: nat, bufLen: nat, x: nat) returns (o: nat)
    requires x in ElementAt(m, e, bufLen)
    ensures Placed(m.stride, e, o, x) && o in m.offsets && x + 4 <= bufLen
  {
    o := x - e * m.stride;
  }

  lemma MemberIsMarked(m: TraceMap, bufLen: nat, x: nat) returns (e: nat, o: nat)
    requires x in PointerOffsets(m, bufLen)
    ensures Placed(m.stride, e, o, x) && o in m.offsets && x + 4 <= bufLen && m.stride > 0
  {
    var n := Elements(m, bufLen);
    OffsetsFromMembers(m, 0, n, bufLen);
    e :| e < n && x in ElementAt(m, e, bufLen);
    o := ElementMember(m, e, bufLen, x);
  }

  lemma MarkedIsMember(m: TraceMap, bufLen: nat, x: nat, e: nat, o: nat)
    requires m.stride > 0 && Placed(m.stride, e, o, x) && o in m.offsets && x + 4 <= bufLen
    ensures x in PointerOffsets(m, bufLen)
  {
    CeilCovers(e, m.stride, x, bufLen);
    assert x in ElementAt(m, e, bufLen);
    OffsetsFromMembers(m, 0, Elements(m, bufLen), bufLen);
  }

  /**
   The scan visits, in strictly increasing order, exactly the in-buffer words
   whose bit is set in their own element.
   */
  lemma PointerOffsetsExact(m: TraceMap, mapBytes: seq<Byte>, stride: nat, bufLen: nat)
    requires Describes(m, mapBytes, stride)
    ensures Increasing(PointerOffsets(m, bufLen))
    ensures forall x: nat :: x in PointerOffsets(m, bufLen) <==>
      x + 4 <= bufLen && exists e: nat, o: nat :: Marked(mapBytes, stride, o) && Placed(stride, e, o, x)
  {
    OffsetsFromIncreasing(m, 0, Elements(m, bufLen), bufLen);
    forall x: nat | x in PointerOffsets(m, bufLen)
      ensures x + 4 <= bufLen && exists e: nat, o: nat :: Marked(mapBytes, stride, o) && Placed(stride, e, o, x)
    {
      var e, o := MemberIsMarked(m, bufLen, x);
    }
    forall x: nat, e: nat, o: nat | Marked(mapBytes, stride, o) && Placed(stride, e, o, x) && x + 4 <= bufLen
      ensures x in PointerOffsets(m, bufLen)
    {
      MarkedIsMember(m, bufLen, x, e, o);
    }
  }

  /** Elements fall on word boundaries, or nothing is marked, or the buffer ends before the second marks any. */
  predicate AlignedIn(m: TraceMap, bufLen: nat) {
    m.stride % 4 == 0 || m.offsets == [] || bufLen < m.stride + m.offsets[0] + 4
  }

  lemma MemberAligned(m: TraceMap, bufLen: nat, x: nat)
    requires WellFormed(m) && x in PointerOffsets(m, bufLen)
    requires AlignedIn(m, bufLen)
    ensures x % 4 == 0 && x + 4 <= bufLen
  {
    var e, o := MemberIsMarked(m, bufLen, x);
    if m.stride % 4 == 0 {
      Mod4Base(x, e, o, m.stride);
    } else if e > 0 {
      MulGap(e, m.stride);
      FirstIsLeast(m, o);
    }
  }

  lemma FirstIsLeast(m: TraceMap, o: nat)
    requires WellFormed(m) && o in m.offsets
    ensures m.offsets[0] <= o
  {
  }

  /** The first marked word of the second element. */
  lemma SecondElementWord(m: TraceMap, bufLen: nat) returns (x: nat)
    requires WellFormed(m) && !AlignedIn(m, bufLen)
    ensures x == m.stride + m.offsets[0]
    ensures x in PointerOffsets(m, bufLen)
    ensures x % 4 != 0 && x + 4 <= bufLen
  {
    x := m.stride + m.offsets[0];
    assert m.offsets[0] in m.offsets;
    Mod4Sum(m.offsets[0], m.stride);
    assert Placed(m.stride, 1, m.offsets[0], x);
    MarkedIsMember(m, bufLen, x, 1, m.offsets[0]);
  }

  /** Every word visited in a buffer is word-aligned if and only if that holds of it. */
  lemma AlignedInExactly(m: TraceMap, bufLen: nat)
    requires WellFormed(m)
    ensures (forall x: nat :: x in PointerOffsets(m, bufLen) ==> x % 4 == 0) <==> AlignedIn(m, bufLen)
  {
    if AlignedIn(m, bufLen) {
      forall x: nat | x in PointerOffsets(m, bufLen) ensures x % 4 == 0 {
        MemberAligned(m, bufLen, x);
      }
    } else {
      var x := SecondElementWord(m, bufLen);
    }
  }

  /**
   Every visited word is word-aligned in every buffer if and only if the stride
   is a multiple of four or the map marks nothing.
   */
  lemma AlignedExactly(m: TraceMap)
    requires WellFormed(m)
    ensures (forall bufLen: nat, x: nat :: x in PointerOffsets(m, bufLen) ==> x % 4 == 0)
      <==> m.stride % 4 == 0 || m.offsets == []
  {
    if m.stride % 4 == 0 || m.offsets == [] {
      forall bufLen: nat, x: nat | x in PointerOffsets(m, bufLen) ensures x % 4 == 0 {
        MemberAligned(m, bufLen, x);
      }
    } else {
      var x := SecondElementWord(m, m.stride + m.offsets[0] + 4);
    }
  }
}
