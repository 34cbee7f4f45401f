/**
 Matrix multiply (`math_gemm` in math.rs) in exact arithmetic:
 C := alpha * op(A) * op(B) + beta * C on column-major windows of real arrays.
 */
module Gemms {
  import opened Arith

  type ArrayId = nat
  const NIL: ArrayId := 0

  /** An array as its holder sees it: `length` elements of a root array from `start` on. */
  datatype View = View(root: ArrayId, start: nat, length: nat)

  datatype RealHeap = RealHeap(roots: map<ArrayId, seq<real>>, views: map<ArrayId, View>)

  /** Views lie inside their roots, as slicing makes them; nil names no array. */
  ghost predicate WellFormed(h: RealHeap) {
    && NIL !in h.views
    && forall id :: id in h.views ==>
         h.views[id].root in h.roots && h.views[id].start + h.views[id].length <= |h.roots[h.views[id].root]|
  }

  function Elems(h: RealHeap, id: ArrayId): nat {
    if id in h.views then h.views[id].length else 0
  }

  /** An element through a view; zero beyond the root's end and for anything that is not an array. */
  function Read(h: RealHeap, id: ArrayId, idx: nat): real {
    if id in h.views && h.views[id].root in h.roots && h.views[id].start + idx < |h.roots[h.views[id].root]|
    then h.roots[h.views[id].root][h.views[id].start + idx]
    else 0.0
  }

  function Written(h: RealHeap, id: ArrayId, idx: nat, value: real): RealHeap {
    if id in h.views && h.views[id].root in h.roots && h.views[id].start + idx < |h.roots[h.views[id].root]|
    then
      var v := h.views[id];
      h.(roots := h.roots[v.root := h.roots[v.root][v.start + idx := value]])
    else h
  }

  datatype Call = Call(
    transA: char, transB: char,
    m: int, n: int, k: int,
    alpha: real, a: ArrayId, lda: int,
    b: ArrayId, ldb: int,
    beta: real, c: ArrayId, ldc: int)

  datatype Verdict = Run | NothingToDo | BadFlag | NegativeDimension | TooSmall(which: char)

  predicate IsFlag(t: char) {
    t == 'N' || t == 'T' || t == 'C'
  }

  function Span(ld: nat, rows: nat, cols: nat): (size: int)
    ensures size >= -1
  {
    if ld < (if rows > 1 then rows else 1) then -1
    else ld * (if cols > 0 then cols - 1 else 0) + rows
  }

  predicate Holds(elems: nat, ld: nat, rows: nat, cols: nat) {
    0 <= Span(ld, rows, cols) <= elems
  }

  function Check(h: RealHeap, p: Call): Verdict {
    if !IsFlag(p.transA) || !IsFlag(p.transB) then BadFlag
    else if p.m < 0 || p.n < 0 || p.k < 0 || p.lda < 0 || p.ldb < 0 || p.ldc < 0 then NegativeDimension
    else if p.m == 0 || p.n == 0 || ((p.alpha == 0.0 || p.k == 0) && p.beta == 1.0) then NothingToDo
    else if !Holds(Elems(h, p.c), p.ldc, p.m, p.n) then TooSmall('C')
    else if p.alpha != 0.0 && p.a != NIL then
      if !(if p.transA == 'N' then Holds(Elems(h, p.a), p.lda, p.m, p.k)
           else Holds(Elems(h, p.a), p.lda, p.k, p.m)) then TooSmall('A')
      else if !(if p.transB == 'N' then Holds(Elems(h, p.b), p.ldb, p.k, p.n)
                else Holds(Elems(h, p.b), p.ldb, p.n, p.k)) then TooSmall('B')
      else Run
    else Run
  }

  /**
   What a check of one matrix is for: its columns do not overlap, and each of its
   elements lies in the array. A matrix with no columns is checked as if it had
   one, and one with no rows as if its last column ended where it starts.
   */
  ghost predicate Contains(elems: nat, ld: nat, rows: nat, cols: nat) {
    && ld >= 1 && ld >= rows
    && (forall r: nat, c: nat :: r < rows && c < cols ==> Place(ld, r, c) < elems)
    && (cols == 0 ==> rows <= elems)
    && (rows == 0 && cols > 0 ==> Place(ld, 0, cols - 1) <= elems)
  }

  function Place(ld: nat, r: nat, c: nat): nat {
    r + c * ld
  }

  /** The check of a matrix accepts if and only if that holds. */
  lemma HoldsExactly(elems: nat, ld: nat, rows: nat, cols: nat)
    ensures Holds(elems, ld, rows, cols) <==> Contains(elems, ld, rows, cols)
  {
    if Holds(elems, ld, rows, cols) {
      forall r: nat, c: nat | r < rows && c < cols ensures Place(ld, r, c) < elems {
        HeldElement(elems, ld, rows, cols, r, c);
      }
    } else if rows > 0 && cols > 0 && ld >= rows {
      assert Place(ld, rows - 1, cols - 1) >= elems;
    }
  }

  /** A, as it is or transposed, fits its array; and B. */
  ghost predicate ContainsA(h: RealHeap, p: Call)
    requires Dimensioned(p)
  {
    if p.transA == 'N' then Contains(Elems(h, p.a), p.lda, p.m, p.k) else Contains(Elems(h, p.a), p.lda, p.k, p.m)
  }

  ghost predicate ContainsB(h: RealHeap, p: Call)
    requires Dimensioned(p)
  {
    if p.transB == 'N' then Contains(Elems(h, p.b), p.ldb, p.k, p.n) else Contains(Elems(h, p.b), p.ldb, p.n, p.k)
  }

  predicate Flagged(p: Call) {
    p.transA in {'N', 'T', 'C'} && p.transB in {'N', 'T', 'C'}
  }

  /** No element of C can change: there is none, or nothing is added and C is kept. */
  predicate Idle(p: Call) {
    p.m == 0 || p.n == 0 || ((p.alpha == 0.0 || p.k == 0) && p.beta == 1.0)
  }

  /** The product is asked for, so that A and B are read. */
  predicate Multiplies(p: Call) {
    p.alpha != 0.0 && p.a != NIL
  }

  /** Every verdict and when it is given: the first thing wrong, in this order, is the one named. */
  lemma CheckExactly(h: RealHeap, p: Call)
    ensures Check(h, p).BadFlag? <==> !Flagged(p)
    ensures Check(h, p).NegativeDimension? <==> Flagged(p) && !Dimensioned(p)
    ensures Check(h, p).NothingToDo? <==> Flagged(p) && Dimensioned(p) && Idle(p)
    ensures Check(h, p) == TooSmall('C') <==>
      Flagged(p) && Dimensioned(p) && !Idle(p) && !Contains(Elems(h, p.c), p.ldc, p.m, p.n)
    ensures Check(h, p) == TooSmall('A') <==>
      && Flagged(p) && Dimensioned(p) && !Idle(p) && Contains(Elems(h, p.c), p.ldc, p.m, p.n)
      && Multiplies(p) && !ContainsA(h, p)
    ensures Check(h, p) == TooSmall('B') <==>
      && Flagged(p) && Dimensioned(p) && !Idle(p) && Contains(Elems(h, p.c), p.ldc, p.m, p.n)
      && Multiplies(p) && ContainsA(h, p) && !ContainsB(h, p)
    ensures Check(h, p).Run? <==>
      && Flagged(p) && Dimensioned(p) && !Idle(p) && Contains(Elems(h, p.c), p.ldc, p.m, p.n)
      && (Multiplies(p) ==> ContainsA(h, p) && ContainsB(h, p))
  {
    if Dimensioned(p) {
      HoldsExactly(Elems(h, p.c), p.ldc, p.m, p.n);
      HoldsExactly(Elems(h, p.a), p.lda, p.m, p.k);
      HoldsExactly(Elems(h, p.a), p.lda, p.k, p.m);
      HoldsExactly(Elems(h, p.b), p.ldb, p.k, p.n);
      HoldsExactly(Elems(h, p.b), p.ldb, p.n, p.k);
    }
  }

  predicate Dimensioned(p: Call) {
    p.m >= 0 && p.n >= 0 && p.k >= 0 && p.lda >= 0 && p.ldb >= 0 && p.ldc >= 0
  }

  /** Where a matrix stored with leading dimension `ld` keeps op(M)[i, j]. */
  function At(trans: char, ld: nat, i: nat, j: nat): nat {
    if trans == 'N' then i + j * ld else j + i * ld
  }

  function OpA(h: RealHeap, p: Call, i: nat, l: nat): real
    requires Dimensioned(p)
  {
    Read(h, p.a, At(p.transA, p.lda, i, l))
  }

  function OpB(h: RealHeap, p: Call, l: nat, j: nat): real
    requires Dimensioned(p)
  {
    Read(h, p.b, At(p.transB, p.ldb, l, j))
  }

  /** The first `upTo` terms of the sum over l of op(A)[i, l] * op(B)[l, j]. */
  function Dot(h: RealHeap, p: Call, i: nat, j: nat, upTo: nat): real
    requires Dimensioned(p)
  {
    if upTo == 0 then 0.0 else Dot(h, p, i, j, upTo - 1) + OpA(h, p, i, upTo - 1) * OpB(h, p, upTo - 1, j)
  }

  /** What the call makes of an element of C, given its value before. */
  function Formula(h: RealHeap, p: Call, i: nat, j: nat, before: real): real
    requires Dimensioned(p)
  {
    if p.alpha != 0.0 && p.a == NIL then p.alpha * OpB(h, p, i, j) + p.beta * before
    else p.alpha * Dot(h, p, i, j, p.k) + p.beta * before
  }

  /** One column of C rewritten: m elements from jc on. */
  function Column(h: RealHeap, p: Call, s: seq<real>, j: nat, jc: nat): (r: seq<real>)
    requires Dimensioned(p) && jc + p.m <= |s|
    ensures |r| == |s|
    ensures forall x :: 0 <= x < |s| ==> r[x] == if jc <= x < jc + p.m then Formula(h, p, x - jc, j, s[x]) else s[x]
  {
    seq(|s|, x requires 0 <= x < |s| => if jc <= x < jc + p.m then Formula(h, p, x - jc, j, s[x]) else s[x])
  }

  lemma ColumnFits(p: Call, j: nat)
    requires Dimensioned(p) && j < p.n
    ensures j * p.ldc + p.m <= p.ldc * (p.n - 1) + p.m
  {
    if j < p.n - 1 {
      MulLess(j, p.n - 1, p.ldc);
    }
  }

  /** The working buffer after the first `cols` columns. */
  function Columns(h: RealHeap, p: Call, s: seq<real>, cols: nat): (r: seq<real>)
    requires Dimensioned(p) && cols <= p.n && (p.n > 0 ==> |s| >= p.ldc * (p.n - 1) + p.m)
    ensures |r| == |s|
  {
    if cols == 0 then s
    else
      ColumnFits(p, cols - 1);
      Column(h, p, Columns(h, p, s, cols - 1), cols - 1, (cols - 1) * p.ldc)
  }

  function SizeOfC(p: Call): nat
    requires Dimensioned(p) && p.n > 0
  {
    p.ldc * (p.n - 1) + p.m
  }

  function InitialC(h: RealHeap, p: Call): (r: seq<real>)
    requires Dimensioned(p) && p.n > 0
    ensures |r| == SizeOfC(p) && forall i :: 0 <= i < |r| ==> r[i] == Read(h, p.c, i)
  {
    seq(SizeOfC(p), i requires 0 <= i => Read(h, p.c, i))
  }

  function WrittenBack(h: RealHeap, id: ArrayId, buf: seq<real>, upTo: nat): RealHeap
    requires upTo <= |buf|
  {
    if upTo == 0 then h else Written(WrittenBack(h, id, buf, upTo - 1), id, upTo - 1, buf[upTo - 1])
  }

  /** The heap after a call. */
  function Result(h: RealHeap, p: Call): RealHeap {
    if !Check(h, p).Run? then h
    else
      var buf := Columns(h, p, InitialC(h, p), p.n);
      WrittenBack(h, p.c, buf, |buf|)
  }

  // --- The loop nests, one column at a time ---

  /** An element of C when `l` terms of its sum have been added. */
  function Partial(h: RealHeap, p: Call, i: nat, j: nat, l: nat, before: real): real
    requires Dimensioned(p)
  {
    p.alpha * Dot(h, p, i, j, l) + p.beta * before
  }

  lemma PartialStep(h: RealHeap, p: Call, i: nat, j: nat, l: nat, before: real)
    requires Dimensioned(p)
    ensures Partial(h, p, i, j, 0, before) == p.beta * before
    ensures Partial(h, p, i, j, l + 1, before) ==
      Partial(h, p, i, j, l, before) + p.alpha * OpB(h, p, l, j) * OpA(h, p, i, l)
  {
    Distribute(p.alpha, Dot(h, p, i, j, l), OpA(h, p, i, l), OpB(h, p, l, j));
  }

  lemma Distribute(alpha: real, d: real, a: real, b: real)
    ensures alpha * (d + a * b) == alpha * d + alpha * b * a
  {
  }

  lemma FormulaIsPartial(h: RealHeap, p: Call, i: nat, j: nat, before: real)
    requires Dimensioned(p) && !(p.alpha != 0.0 && p.a == NIL)
    ensures Formula(h, p, i, j, before) == Partial(h, p, i, j, p.k, before)
    ensures p.alpha == 0.0 ==> Formula(h, p, i, j, before) == p.beta * before
  {
  }

  /** The first `rows` elements of the window at jc hold their new values, the rest of the buffer its old ones. */
  predicate Swept(h: RealHeap, p: Call, was: seq<real>, now: seq<real>, j: nat, jc: nat, rows: int)
    requires Dimensioned(p)
  {
    && |now| == |was|
    && forall x :: 0 <= x < |now| ==> now[x] == if jc <= x < jc + rows then Formula(h, p, x - jc, j, was[x]) else was[x]
  }

  lemma SweptStep(h: RealHeap, p: Call, was: seq<real>, now: seq<real>, j: nat, jc: nat, i: nat, value: real)
    requires Dimensioned(p) && Swept(h, p, was, now, j, jc, i) && jc + i < |was|
    requires value == Formula(h, p, i, j, was[jc + i])
    ensures Swept(h, p, was, now[jc + i := value], j, jc, i + 1)
  {
  }

  /** alpha is zero. */
  method ScaleColumns(h: RealHeap, p: Call, c: array<real>)
    requires Dimensioned(p) && p.n > 0 && c.Length == SizeOfC(p) && p.alpha == 0.0
    modifies c
    ensures c[..] == Columns(h, p, old(c[..]), p.n)
  {
    var j := 0;
    while j < p.n
      invariant 0 <= j <= p.n && c[..] == Columns(h, p, old(c[..]), j)
    {
      ColumnFits(p, j);
      ScaleColumn(h, p, c, j, j * p.ldc);
      j := j + 1;
    }
  }

  method ScaleColumn(h: RealHeap, p: Call, c: array<real>, ghost j: nat, jc: nat)
    requires Dimensioned(p) && jc + p.m <= c.Length && p.alpha == 0.0
    modifies c
    ensures c[..] == Column(h, p, old(c[..]), j, jc)
  {
    ghost var was := c[..];
    var i := 0;
    while i < p.m
      invariant 0 <= i <= p.m && Swept(h, p, was, c[..], j, jc, i)
    {
      FormulaIsPartial(h, p, i, j, was[i + jc]);
      if p.beta == 0.0 {
        c[i + jc] := 0.0;
      } else {
        c[i + jc] := c[i + jc] * p.beta;
      }
      i := i + 1;
    }
  }

  /** A is nil: op(B) stands for the product. */
  method NilColumns(h: RealHeap, p: Call, c: array<real>)
    requires Dimensioned(p) && p.n > 0 && c.Length == SizeOfC(p) && p.alpha != 0.0 && p.a == NIL
    modifies c
    ensures c[..] == Columns(h, p, old(c[..]), p.n)
  {
    var j := 0;
    while j < p.n
      invariant 0 <= j <= p.n && c[..] == Columns(h, p, old(c[..]), j)
    {
      ColumnFits(p, j);
      NilColumn(h, p, c, j, j * p.ldc);
      j := j + 1;
    }
  }

  method NilColumn(h: RealHeap, p: Call, c: array<real>, j: nat, jc: nat)
    requires Dimensioned(p) && jc + p.m <= c.Length && p.alpha != 0.0 && p.a == NIL
    modifies c
    ensures c[..] == Column(h, p, old(c[..]), j, jc)
  {
    ghost var was := c[..];
    var i := 0;
    while i < p.m
      invariant 0 <= i <= p.m && Swept(h, p, was, c[..], j, jc, i)
    {
      var bVal := OpB(h, p, i, j);
      var value := p.alpha * bVal + p.beta * c[i + jc];
      SweptStep(h, p, was, c[..], j, jc, i, value);
      c[i + jc] := value;
      i := i + 1;
    }
  }

  /** A is used as it is: each column of C gathers multiples of A's columns. */
  method SweepColumns(h: RealHeap, p: Call, c: array<real>)
    requires Dimensioned(p) && p.n > 0 && c.Length == SizeOfC(p) && p.alpha != 0.0 && p.a != NIL && p.transA == 'N'
    modifies c
    ensures c[..] == Columns(h, p, old(c[..]), p.n)
  {
    var j := 0;
    while j < p.n
      invariant 0 <= j <= p.n && c[..] == Columns(h, p, old(c[..]), j)
    {
      ColumnFits(p, j);
      SweepColumn(h, p, c, j, j * p.ldc);
      j := j + 1;
    }
  }

  /** With `l` terms of each sum added in the window at jc. */
  predicate Gathered(h: RealHeap, p: Call, was: seq<real>, now: seq<real>, j: nat, jc: nat, l: nat)
    requires Dimensioned(p)
  {
    && |now| == |was|
    && forall x :: 0 <= x < |now| ==>
      now[x] == if jc <= x < jc + p.m then Partial(h, p, x - jc, j, l, was[x]) else was[x]
  }

  method SweepColumn(h: RealHeap, p: Call, c: array<real>, j: nat, jc: nat)
    requires Dimensioned(p) && jc + p.m <= c.Length && p.alpha != 0.0 && p.a != NIL && p.transA == 'N'
    modifies c
    ensures c[..] == Column(h, p, old(c[..]), j, jc)
  {
    ghost var was := c[..];
    BetaColumn(p, c, jc);
    GatherStarts(h, p, was, c[..], j, jc);
    var l := 0;
    while l < p.k
      invariant 0 <= l <= p.k && Gathered(h, p, was, c[..], j, jc, l)
    {
      ghost var before := c[..];
      AddTerm(h, p, c, j, jc, l);
      GatherStep(h, p, was, before, c[..], j, jc, l);
      l := l + 1;
    }
    GatherEnds(h, p, was, c[..], j, jc);
  }

  /** The term of the product for one `l` added to a column. */
  predicate Termed(h: RealHeap, p: Call, before: seq<real>, now: seq<real>, j: nat, jc: nat, l: nat)
    requires Dimensioned(p)
  {
    if OpB(h, p, l, j) != 0.0 then Added(h, p, before, now, jc, l, p.alpha * OpB(h, p, l, j), p.m) else now == before
  }

  method AddTerm(h: RealHeap, p: Call, c: array<real>, j: nat, jc: nat, l: nat)
    requires Dimensioned(p) && jc + p.m <= c.Length && p.transA == 'N'
    modifies c
    ensures Termed(h, p, old(c[..]), c[..], j, jc, l)
  {
    var bVal := OpB(h, p, l, j);
    if bVal != 0.0 {
      AddMultiple(h, p, c, jc, l, p.alpha * bVal);
    }
  }

  /** The window's elements multiplied by beta. */
  predicate Scaled(p: Call, was: seq<real>, now: seq<real>, jc: nat, rows: int) {
    && |now| == |was|
    && forall x :: 0 <= x < |now| ==> now[x] == if jc <= x < jc + rows then p.beta * was[x] else was[x]
  }

  method BetaColumn(p: Call, c: array<real>, jc: nat)
    requires Dimensioned(p) && jc + p.m <= c.Length
    modifies c
    ensures Scaled(p, old(c[..]), c[..], jc, p.m)
  {
    ghost var was := c[..];
    var i := 0;
    while i < p.m
      invariant 0 <= i <= p.m && Scaled(p, was, c[..], jc, i)
    {
      if p.beta == 0.0 {
        c[i + jc] := 0.0;
      } else if p.beta != 1.0 {
        c[i + jc] := c[i + jc] * p.beta;
      }
      i := i + 1;
    }
  }

  /** The window's elements with `temp` times a column of A added. */
  predicate Added(h: RealHeap, p: Call, was: seq<real>, now: seq<real>, jc: nat, l: nat, temp: real, rows: int)
    requires Dimensioned(p)
  {
    && |now| == |was|
    && forall x :: 0 <= x < |now| ==>
      now[x] == if jc <= x < jc + rows then was[x] + temp * OpA(h, p, x - jc, l) else was[x]
  }

  method AddMultiple(h: RealHeap, p: Call, c: array<real>, jc: nat, l: nat, temp: real)
    requires Dimensioned(p) && jc + p.m <= c.Length && p.transA == 'N'
    modifies c
    ensures Added(h, p, old(c[..]), c[..], jc, l, temp, p.m)
  {
    ghost var was := c[..];
    var i := 0;
    while i < p.m
      invariant 0 <= i <= p.m && Added(h, p, was, c[..], jc, l, temp, i)
    {
      var aVal := OpA(h, p, i, l);
      c[i + jc] := c[i + jc] + temp * aVal;
      i := i + 1;
    }
  }

  lemma GatherStarts(h: RealHeap, p: Call, was: seq<real>, now: seq<real>, j: nat, jc: nat)
    requires Dimensioned(p) && Scaled(p, was, now, jc, p.m)
    ensures Gathered(h, p, was, now, j, jc, 0)
  {
  }

  lemma GatherStep(h: RealHeap, p: Call, was: seq<real>, before: seq<real>, now: seq<real>, j: nat, jc: nat, l: nat)
    requires Dimensioned(p) && Gathered(h, p, was, before, j, jc, l) && Termed(h, p, before, now, j, jc, l)
    ensures Gathered(h, p, was, now, j, jc, l + 1)
  {
    forall x | 0 <= x < |now| && jc <= x < jc + p.m ensures now[x] == Partial(h, p, x - jc, j, l + 1, was[x]) {
      PartialStep(h, p, x - jc, j, l, was[x]);
    }
  }

  lemma GatherEnds(h: RealHeap, p: Call, was: seq<real>, now: seq<real>, j: nat, jc: nat)
    requires Dimensioned(p) && jc + p.m <= |was| && p.a != NIL && Gathered(h, p, was, now, j, jc, p.k)
    ensures now == Column(h, p, was, j, jc)
  {
    forall x | jc <= x < jc + p.m ensures now[x] == Formula(h, p, x - jc, j, was[x]) {
      FormulaIsPartial(h, p, x - jc, j, was[x]);
    }
  }

  /** A is transposed: each element of C is one sum. */
  method DotColumns(h: RealHeap, p: Call, c: array<real>)
    requires Dimensioned(p) && p.n > 0 && c.Length == SizeOfC(p) && p.alpha != 0.0 && p.a != NIL && p.transA != 'N'
    modifies c
    ensures c[..] == Columns(h, p, old(c[..]), p.n)
  {
    var j := 0;
    while j < p.n
      invariant 0 <= j <= p.n && c[..] == Columns(h, p, old(c[..]), j)
    {
      ColumnFits(p, j);
      DotColumn(h, p, c, j, j * p.ldc);
      j := j + 1;
    }
  }

  method DotColumn(h: RealHeap, p: Call, c: array<real>, j: nat, jc: nat)
    requires Dimensioned(p) && jc + p.m <= c.Length && p.alpha != 0.0 && p.a != NIL && p.transA != 'N'
    modifies c
    ensures c[..] == Column(h, p, old(c[..]), j, jc)
  {
    ghost var was := c[..];
    var i := 0;
    while i < p.m
      invariant 0 <= i <= p.m && Swept(h, p, was, c[..], j, jc, i)
    {
      var temp := SumOfProducts(h, p, i, j);
      var value := if p.beta == 0.0 then p.alpha * temp else p.alpha * temp + p.beta * c[i + jc];
      FormulaIsPartial(h, p, i, j, c[i + jc]);
      SweptStep(h, p, was, c[..], j, jc, i, value);
      c[i + jc] := value;
      i := i + 1;
    }
  }

  method SumOfProducts(h: RealHeap, p: Call, i: nat, j: nat) returns (temp: real)
    requires Dimensioned(p) && p.transA != 'N'
    ensures temp == Dot(h, p, i, j, p.k)
  {
    temp := 0.0;
    var l := 0;
    while l < p.k
      invariant 0 <= l <= p.k && temp == Dot(h, p, i, j, l)
    {
      temp := temp + OpA(h, p, i, l) * OpB(h, p, l, j);
      l := l + 1;
    }
  }

  lemma CheckedIsDimensioned(h: RealHeap, p: Call)
    ensures Check(h, p).Run? ==> Dimensioned(p) && p.m > 0 && p.n > 0
  {
  }

  /** The array part of the VM's heap. */
  class RealArrays {
    var heap: RealHeap

    constructor (heap: RealHeap)
      ensures this.heap == heap
    {
      this.heap := heap;
    }

    method ArrayWrite(id: ArrayId, idx: nat, value: real)
      modifies this
      ensures heap == Written(old(heap), id, idx, value)
    {
      if id in heap.views {
        var v := heap.views[id];
        if v.root in heap.roots && v.start + idx < |heap.roots[v.root]| {
          heap := heap.(roots := heap.roots[v.root := heap.roots[v.root][v.start + idx := value]]);
        }
      }
    }

    method Gemm(p: Call) returns (verdict: Verdict)
      modifies this
      ensures verdict == Check(old(heap), p)
      ensures heap == Result(old(heap), p)
    {
      ghost var h := heap;
      CheckedIsDimensioned(h, p);
      verdict := Check(heap, p);
      if !verdict.Run? {
        return;
      }
      var initial := InitialC(heap, p);
      var cBuf := new real[|initial|](i requires 0 <= i < |initial| => initial[i]);
      assert cBuf[..] == initial;
      Multiply(heap, p, cBuf);
      WriteBack(p.c, cBuf);
    }

    method WriteBack(id: ArrayId, buf: array<real>)
      modifies this
      ensures heap == WrittenBack(old(heap), id, buf[..], buf.Length)
    {
      ghost var h, all := heap, buf[..];
      var i := 0;
      while i < buf.Length
        invariant i <= buf.Length && heap == WrittenBack(h, id, all, i)
      {
        ArrayWrite(id, i, buf[i]);
        i := i + 1;
      }
    }
  }

  /** The path that the operands select. */
  method Multiply(h: RealHeap, p: Call, c: array<real>)
    requires Dimensioned(p) && p.n > 0 && c.Length == SizeOfC(p)
    modifies c
    ensures c[..] == Columns(h, p, old(c[..]), p.n)
  {
    if p.alpha == 0.0 {
      ScaleColumns(h, p, c);
    } else if p.a == NIL {
      NilColumns(h, p, c);
    } else if p.transA == 'N' {
      SweepColumns(h, p, c);
    } else {
      DotColumns(h, p, c);
    }
  }

  // --- What a call computes ---

  /** An element lies in its own column's window and in no other's. */
  lemma OwnColumn(p: Call, i: nat, j: nat, c: nat)
    requires Dimensioned(p) && p.ldc >= p.m && i < p.m
    ensures c * p.ldc <= Elem(p, i, j) < c * p.ldc + p.m <==> j == c
  {
    if j < c {
      MulLess(j, c, p.ldc);
    } else if j > c {
      MulLess(c, j, p.ldc);
    }
  }

  lemma ElemInBuffer(p: Call, i: nat, j: nat)
    requires Dimensioned(p) && i < p.m && j < p.n
    ensures Elem(p, i, j) < SizeOfC(p)
    ensures Elem(p, i, j) - j * p.ldc == i
  {
    ColumnFits(p, j);
  }

  lemma {:induction false} ColumnsAt(h: RealHeap, p: Call, s: seq<real>, cols: nat, i: nat, j: nat, x: nat)
    requires Dimensioned(p) && p.n > 0 && |s| >= SizeOfC(p) && p.ldc >= p.m
    requires cols <= p.n && i < p.m && j < p.n && x == Elem(p, i, j) && x < |s|
    ensures Columns(h, p, s, cols)[x] == if j < cols then Formula(h, p, i, j, s[x]) else s[x]
    decreases cols
  {
    if cols > 0 {
      ColumnFits(p, cols - 1);
      ColumnsAt(h, p, s, cols - 1, i, j, x);
      OwnColumn(p, i, j, cols - 1);
      ElemInBuffer(p, i, j);
    }
  }

  ghost predicate InWindow(p: Call, x: int)
    requires Dimensioned(p)
  {
    exists i: nat, j: nat :: i < p.m && j < p.n && x == Elem(p, i, j)
  }

  function Elem(p: Call, i: nat, j: nat): nat
    requires Dimensioned(p)
  {
    i + j * p.ldc
  }

  lemma ColumnInWindow(p: Call, x: nat, j: nat)
    requires Dimensioned(p) && j < p.n && j * p.ldc <= x < j * p.ldc + p.m
    ensures InWindow(p, x)
  {
    assert x == Elem(p, x - j * p.ldc, j);
  }

  lemma {:induction false} ColumnsElsewhere(h: RealHeap, p: Call, s: seq<real>, cols: nat, x: nat)
    requires Dimensioned(p) && p.n > 0 && |s| >= SizeOfC(p) && cols <= p.n && x < |s| && !InWindow(p, x)
    ensures Columns(h, p, s, cols)[x] == s[x]
    decreases cols
  {
    if cols > 0 {
      ColumnFits(p, cols - 1);
      ColumnsElsewhere(h, p, s, cols - 1, x);
      var jc := (cols - 1) * p.ldc;
      if jc <= x < jc + p.m {
        ColumnInWindow(p, x, cols - 1);
      }
    }
  }

  lemma {:induction false} WrittenBackReads(h: RealHeap, id: ArrayId, buf: seq<real>, upTo: nat)
    requires WellFormed(h) && id in h.views && |buf| <= h.views[id].length && upTo <= |buf|
    ensures var after := WrittenBack(h, id, buf, upTo); var v := h.views[id];
      && after.views == h.views && after.roots.Keys == h.roots.Keys
      && (forall r :: r in h.roots ==> |after.roots[r]| == |h.roots[r]|)
      && (forall r :: r in h.roots && r != v.root ==> after.roots[r] == h.roots[r])
      && forall x :: 0 <= x < |h.roots[v.root]| ==>
           after.roots[v.root][x] == if v.start <= x < v.start + upTo then buf[x - v.start] else h.roots[v.root][x]
  {
    if upTo > 0 {
      WrittenBackReads(h, id, buf, upTo - 1);
    }
  }

  lemma HeldC(h: RealHeap, p: Call)
    requires Check(h, p).Run?
    ensures Dimensioned(p) && p.n > 0 && p.m > 0 && p.ldc >= p.m && SizeOfC(p) <= Elems(h, p.c) && p.c in h.views
  {
    assert Holds(Elems(h, p.c), p.ldc, p.m, p.n);
  }

  /** A nil A, with nothing to sum and nothing to scale, is taken as no work at all. */
  predicate SkipsNilA(h: RealHeap, p: Call, i: nat, j: nat)
    requires Dimensioned(p)
  {
    p.alpha != 0.0 && p.a == NIL && p.k == 0 && p.beta == 1.0 && OpB(h, p, i, j) != 0.0
  }

  /**
   Every accepted call leaves the formula in each element of the m by n window,
   whichever path it took and whatever C shares with A or B, if and only if it
   is not a nil A with k zero and beta one, where op(B) is not added.
   */
  lemma GemmIsFormula(h: RealHeap, p: Call, i: nat, j: nat)
    requires WellFormed(h) && (Check(h, p).Run? || Check(h, p).NothingToDo?)
    requires Dimensioned(p) && i < p.m && j < p.n
    ensures Read(Result(h, p), p.c, Elem(p, i, j)) == Formula(h, p, i, j, Read(h, p.c, Elem(p, i, j)))
      <==> !SkipsNilA(h, p, i, j)
  {
    if Check(h, p).Run? {
      HeldC(h, p);
      var s := InitialC(h, p);
      ElemInBuffer(p, i, j);
      ColumnsAt(h, p, s, p.n, i, j, Elem(p, i, j));
      WrittenBackReads(h, p.c, Columns(h, p, s, p.n), |s|);
    } else {
      NothingToDoIsFormula(h, p, i, j);
    }
  }

  /** Such a case: one by one, A nil, k zero, alpha and beta one, B holding 1 and C holding 0. */
  lemma NilASkipped() returns (h: RealHeap, p: Call)
    ensures WellFormed(h) && Check(h, p) == NothingToDo && Dimensioned(p) && p.m == 1 && p.n == 1
    ensures SkipsNilA(h, p, 0, 0) && OpB(h, p, 0, 0) == 1.0
    ensures Read(Result(h, p), p.c, 0) == 0.0 && Formula(h, p, 0, 0, Read(h, p.c, 0)) == 1.0
  {
    h := RealHeap(map[1 := [1.0], 2 := [0.0]], map[1 := View(1, 0, 1), 2 := View(2, 0, 1)]);
    p := Call('N', 'N', 1, 1, 0, 1.0, NIL, 1, 1, 1, 1.0, 2, 1);
    assert At(p.transB, p.ldb, 0, 0) == 0;
  }

  lemma NothingToDoIsFormula(h: RealHeap, p: Call, i: nat, j: nat)
    requires Dimensioned(p) && i < p.m && j < p.n && Check(h, p).NothingToDo?
    ensures Read(h, p.c, Elem(p, i, j)) == Formula(h, p, i, j, Read(h, p.c, Elem(p, i, j))) <==> !SkipsNilA(h, p, i, j)
  {
    if p.alpha != 0.0 && p.a == NIL {
      ProductZero(p.alpha, OpB(h, p, i, j));
    }
  }

  lemma ProductZero(a: real, b: real)
    requires a != 0.0
    ensures a * b == 0.0 <==> b == 0.0
  {
  }

  /**
   Nothing but the window of C changes: not the padding between columns, not the
   rest of C's root, not any other array.
   */
  lemma GemmTouchesOnlyWindow(h: RealHeap, p: Call, root: ArrayId, x: nat)
    requires WellFormed(h) && root in h.roots && x < |h.roots[root]|
    requires Check(h, p).Run? ==> Dimensioned(p) && !(h.views[p.c].root == root && InWindow(p, x - h.views[p.c].start))
    ensures Result(h, p).views == h.views && Result(h, p).roots.Keys == h.roots.Keys
    ensures |Result(h, p).roots[root]| == |h.roots[root]| && Result(h, p).roots[root][x] == h.roots[root][x]
  {
    if Check(h, p).Run? {
      HeldC(h, p);
      var s := InitialC(h, p);
      var v := h.views[p.c];
      WrittenBackReads(h, p.c, Columns(h, p, s, p.n), |s|);
      if root == v.root && v.start <= x < v.start + |s| {
        ColumnsElsewhere(h, p, s, p.n, x - v.start);
      }
    }
  }

  /** Once accepted, no element of A or B that the product needs lies outside its array. */
  lemma IndicesInRange(h: RealHeap, p: Call, i: nat, j: nat, l: nat)
    requires Check(h, p).Run? && p.alpha != 0.0 && p.a != NIL && i < p.m && j < p.n && l < p.k
    ensures Dimensioned(p)
    ensures At(p.transA, p.lda, i, l) < Elems(h, p.a) && At(p.transB, p.ldb, l, j) < Elems(h, p.b)
  {
    if p.transA == 'N' {
      HeldElement(Elems(h, p.a), p.lda, p.m, p.k, i, l);
    } else {
      HeldElement(Elems(h, p.a), p.lda, p.k, p.m, l, i);
    }
    if p.transB == 'N' {
      HeldElement(Elems(h, p.b), p.ldb, p.k, p.n, l, j);
    } else {
      HeldElement(Elems(h, p.b), p.ldb, p.n, p.k, j, l);
    }
  }

  lemma HeldElement(elems: nat, ld: nat, rows: nat, cols: nat, r: nat, c: nat)
    requires Holds(elems, ld, rows, cols) && r < rows && c < cols
    ensures r + c * ld < elems
  {
    if c < cols - 1 {
      MulLess(c, cols - 1, ld);
    }
  }
}
