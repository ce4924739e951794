/**
 * The N-dimensional growable array of qedarray.js (QEDArray_).
 *
 * The array is a rectangular nested array whose per-axis extents are kept in
 * `dims`.  Insert(pos, size) grows it by size[d] slots at offset pos[d] on
 * every axis at once: InsertLevel walks the axes, recursing into the untouched
 * prefix, shifting the existing slots [pos, dims) up by size (descending, so
 * that no slot is overwritten before it is copied), building fresh subtrees for
 * the new block and recursing into the shifted suffix.  At the last axis the
 * user callback Init is called once per new leaf with the shared cursor pp.
 *
 * InsertLevel is specified by the function Grow; the method InsertLevel of the
 * class QEDArray mutates one slot array per level in place and is proved equal
 * to it.  The lemmas below state what Grow promises: the shape after the
 * insertion, where every old value goes, exactly which cursors Init receives
 * and in which order, and that an all-zero insertion changes nothing.
 */
module QedArray {

  /** A slot of the nested array: a value on the last axis, a nested array above it. */
  datatype Node<T> = Leaf(value: T) | Branch(children: seq<Node<T>>)

  /**
   * The arguments InsertLevel carries down the axes: the current extents of
   * the subtree, the insertion offset and width on every axis, and the extents
   * after the insertion.
   */
  datatype Extents = Extents(dims: seq<nat>, pos: seq<nat>, size: seq<nat>, newSize: seq<nat>)

  /** What growing one level produces: the new slots and the cursors Init was called with, in call order. */
  datatype Outcome<T> = Outcome(slots: seq<Node<T>>, calls: seq<seq<int>>)

  datatype Result<T> = Ok(value: T) | Error(message: string)

  function Zeros(n: nat): (z: seq<nat>)
    ensures |z| == n && forall i | 0 <= i < n :: z[i] == 0
  {
    seq(n, _ => 0)
  }

  /** All four vectors have one entry per axis, pos lies inside dims, and newSize = dims + size. */
  ghost predicate WellFormed(e: Extents)
  {
    |e.dims| == |e.pos| == |e.size| == |e.newSize| &&
    forall d | 0 <= d < |e.dims| :: e.pos[d] <= e.dims[d] && e.newSize[d] == e.dims[d] + e.size[d]
  }

  /** The arguments InsertLevel passes for a slot of the new block: a fresh [] grown from zero extents to newSize. */
  function Fresh(e: Extents): Extents
  {
    Extents(Zeros(|e.size|), Zeros(|e.size|), e.newSize, e.newSize)
  }

  /** Product of the extents from axis `from` on: the number of leaves below one slot of axis from-1. */
  function Prod(x: seq<nat>, from: nat): nat
    decreases |x| - from
  {
    if from >= |x| then 1 else x[from] * Prod(x, from + 1)
  }

  /** `a` is the slot array of axis `level` of a rectangular array with extents `dims`. */
  ghost predicate Rect<T>(a: seq<Node<T>>, dims: seq<nat>, level: nat)
    requires level < |dims|
    decreases |dims| - level
  {
    |a| == dims[level] &&
    forall k | 0 <= k < |a| ::
      if level + 1 == |dims| then a[k].Leaf? else a[k].Branch? && Rect(a[k].children, dims, level + 1)
  }

  /** Coordinate `j` lies inside the extents `ext` on every axis from `level` on. */
  ghost predicate InBox(j: seq<int>, ext: seq<nat>, level: nat)
    requires |j| == |ext|
  {
    forall d | level <= d < |j| :: 0 <= j[d] < ext[d]
  }

  /** The value stored at coordinate `j`, reading the axes from `level` on. */
  ghost function Cell<T>(a: seq<Node<T>>, dims: seq<nat>, j: seq<int>, level: nat): T
    requires level < |dims| == |j| && Rect(a, dims, level) && InBox(j, dims, level)
    decreases |dims| - level
  {
    if level + 1 == |dims| then a[j[level]].value
    else Cell(a[j[level]].children, dims, j, level + 1)
  }

  /** Coordinate `j` lies in the inserted range on at least one axis from `level` on. */
  ghost predicate Cross(j: seq<int>, e: Extents, level: nat)
    requires |j| == |e.pos| == |e.size|
  {
    exists d | level <= d < |j| :: e.pos[d] <= j[d] < e.pos[d] + e.size[d]
  }

  /** The old coordinate of the element that an insertion moves to `j`. */
  function Unshift(j: seq<int>, e: Extents): seq<int>
    requires |j| == |e.pos| == |e.size|
  {
    seq(|j|, d requires 0 <= d < |j| => if j[d] < e.pos[d] then j[d] else j[d] - e.size[d])
  }

  /** The new coordinate of the element at old coordinate `i`. */
  function Shift(i: seq<int>, e: Extents): seq<int>
    requires |i| == |e.pos| == |e.size|
  {
    seq(|i|, d requires 0 <= d < |i| => if i[d] < e.pos[d] then i[d] else i[d] + e.size[d])
  }

  /** `c` is a cursor Init must receive: below prefix `cur`, inside the new extents and in the cross. */
  ghost predicate InitTarget(c: seq<int>, e: Extents, cur: seq<int>, level: nat)
    requires |e.pos| == |e.size| == |e.newSize|
  {
    |c| == |e.pos| && level <= |c| && c[..level] == cur && InBox(c, e.newSize, level) && Cross(c, e, level)
  }

  /** `x` precedes `y` in row-major (lexicographic) order. */
  ghost predicate LexLess(x: seq<int>, y: seq<int>)
  {
    exists m | 0 <= m < |x| && m < |y| :: x[..m] == y[..m] && x[m] < y[m]
  }

  ghost predicate Ascending(cs: seq<seq<int>>)
  {
    forall i, j | 0 <= i < j < |cs| :: LexLess(cs[i], cs[j])
  }

  /** The leaves Init stores in the block [p, p+s) of the last axis. */
  function NewLeaves<T>(cur: seq<int>, p: nat, s: nat, init: seq<int> -> T): seq<Node<T>>
  {
    seq(s, i => Leaf(init(cur + [p + i])))
  }

  /** The cursors Init receives for the block [p, p+s) of the last axis. */
  function NewCursors(cur: seq<int>, p: nat, s: nat): seq<seq<int>>
  {
    seq(s, i => cur + [p + i])
  }

  /**
   * InsertLevel at axis `level`, below the cursor prefix `cur`: the new slot
   * array and the cursors passed to Init.
   */
  function Grow<T>(a: seq<Node<T>>, e: Extents, cur: seq<int>, level: nat, init: seq<int> -> T): Outcome<T>
    requires WellFormed(e) && level < |e.dims| && Rect(a, e.dims, level)
    decreases |e.dims| - level, 2, 0
  {
    var p, s := e.pos[level], e.size[level];
    if level + 1 == |e.dims| then
      Outcome(a[..p] + NewLeaves(cur, p, s, init) + a[p..], NewCursors(cur, p, s))
    else
      GrowRange(a, e, cur, level, e.newSize[level], init)
  }

  /** The slots [0, hi) of an inner axis after the insertion, and the Init cursors below them. */
  function GrowRange<T>(a: seq<Node<T>>, e: Extents, cur: seq<int>, level: nat, hi: nat, init: seq<int> -> T): Outcome<T>
    requires WellFormed(e) && level + 1 < |e.dims| && Rect(a, e.dims, level) && hi <= e.newSize[level]
    decreases |e.dims| - level, 1, hi
  {
    if hi == 0 then Outcome([], [])
    else
      var r := GrowRange(a, e, cur, level, hi - 1, init);
      var c := GrowSlot(a, e, cur, level, hi - 1, init);
      Outcome(r.slots + [Branch(c.slots)], r.calls + c.calls)
  }

  /**
   * The recursive call for slot k of an inner axis: the untouched prefix, a
   * fresh subtree for the new block, or the shifted suffix.
   */
  function GrowSlot<T>(a: seq<Node<T>>, e: Extents, cur: seq<int>, level: nat, k: nat, init: seq<int> -> T): Outcome<T>
    requires WellFormed(e) && level + 1 < |e.dims| && Rect(a, e.dims, level) && k < e.newSize[level]
    decreases |e.dims| - level, 0, 0
  {
    var p, s := e.pos[level], e.size[level];
    if k < p then Grow(a[k].children, e, cur + [k], level + 1, init)
    else if k < p + s then Grow([], Fresh(e), cur + [k], level + 1, init)
    else Grow(a[k - s].children, e, cur + [k], level + 1, init)
  }

  /** Every slot of [p, d) moved up by s at once; the other slots as they were. */
  function Shifted<U>(x: seq<U>, p: nat, d: nat, s: nat): seq<U>
    requires p <= d && d + s <= |x|
  {
    seq(|x|, k requires 0 <= k < |x| => if p + s <= k < d + s then x[k - s] else x[k])
  }

  /** What the shift leaves in a slot array grown from `a`: the prefix as it was, the suffix moved up by s. */
  lemma ShiftedSlots<T>(x: seq<Node<T>>, a: seq<Node<T>>, p: nat, d: nat, s: nat)
    requires p <= d == |a| && |x| == d + s
    requires forall k | p <= k < |x| :: x[k] == if k < |a| then a[k] else Branch([])
    ensures Shifted(x, p, d, s)[..p] == x[..p]
    ensures forall k | p + s <= k < |x| :: Shifted(x, p, d, s)[k] == a[k - s]
    ensures s == 0 ==> Shifted(x, p, d, s) == x
  {
  }

  /** On the last axis the shift leaves the old slots before p and after p+s, with room for s new leaves between. */
  lemma SplicedSlots<T>(x: seq<Node<T>>, a: seq<Node<T>>, p: nat, d: nat, s: nat)
    requires p <= d == |a| && |x| == d + s
    requires forall k | 0 <= k < |x| :: x[k] == if k < |a| then a[k] else Branch([])
    ensures Shifted(x, p, d, s)[..p] == a[..p] && Shifted(x, p, d, s)[p + s..] == a[p..]
    ensures s == 0 ==> Shifted(x, p, d, s) == x
  {
    var y := Shifted(x, p, d, s);
    forall k | 0 <= k < |a| - p
      ensures y[p + s..][k] == a[p..][k]
    {
      assert y[p + s..][k] == y[p + s + k];
    }
  }

  /** A slot array that agrees with `o` outside [p+s, d+s) and holds o[k] at k+s for k in [p, d) is Shifted(o, p, d, s). */
  lemma ShiftedFrom<U>(o: seq<U>, x: seq<U>, p: nat, d: nat, s: nat)
    requires p <= d && d + s <= |x| == |o|
    requires forall k | 0 <= k < |x| && (k < p + s || d + s <= k) :: x[k] == o[k]
    requires forall k | p <= k < d :: x[k + s] == o[k]
    ensures x == Shifted(o, p, d, s)
  {
    forall k | 0 <= k < |x|
      ensures x[k] == Shifted(o, p, d, s)[k]
    {
      if p + s <= k < d + s {
        assert x[(k - s) + s] == o[k - s];
      }
    }
  }

  /**
   * The shift step of InsertLevel: the slots [p, d) move up by s, copying in
   * descending order.  The result is the simultaneous move, so no slot is
   * overwritten before it is copied.
   */
  method ShiftUp<U>(b: array<U>, p: nat, d: nat, s: nat)
    requires p <= d && d + s <= b.Length
    modifies b
    ensures b[..] == Shifted(old(b[..]), p, d, s)
  {
    ghost var o := b[..];
    var i := d - 1;
    while i >= p
      modifies b
      invariant p - 1 <= i <= d - 1
      invariant forall k | 0 <= k < b.Length && (k <= i + s || d + s <= k) :: b[k] == o[k]
      invariant forall k | i < k < d :: b[k + s] == o[k]
      decreases i
    {
      b[i + s] := b[i];
      i := i - 1;
    }
    ShiftedFrom(o, b[..], p, d, s);
  }

  class QEDArray<T> {
    /** The user's Init callback, taken as the value it stores for the cursor it receives. */
    const init: seq<int> -> T
    /** Per-axis extents. */
    var dims: seq<nat>
    /** The array's own slots: axis 0 of the nested array. */
    var slots: seq<Node<T>>

    ghost predicate Valid()
      reads this
    {
      if |dims| == 0 then slots == [] else Rect(slots, dims, 0)
    }

    constructor (init: seq<int> -> T)
      ensures this.init == init && dims == [] && slots == [] && Valid()
    {
      this.init := init;
      dims := [];
      slots := [];
    }

    /** The number of cells: the product of the extents, multiplying from the last axis down. */
    method Size() returns (s: nat)
      ensures s == Prod(dims, 0)
    {
      s := 1;
      var index := |dims| - 1;
      while index >= 0
        invariant -1 <= index < |dims|
        invariant s == Prod(dims, index + 1)
      {
        s := s * dims[index];
        index := index - 1;
      }
    }

    /**
     * size() as written: `this.dims.size()` calls a method JavaScript arrays
     * do not have, so every call raises a TypeError before the loop runs.
     */
    function SizeAsWritten(): (r: Result<nat>)
      ensures r.Error?
    {
      Error("TypeError: this.dims.size is not a function")
    }

    /** InitArray: zero extents, then an insertion of `size` at the origin. */
    method InitArray(size: seq<nat>) returns (calls: seq<seq<int>>)
      requires slots == []
      modifies this
      ensures Valid() && dims == size
      ensures |size| == 0 ==> slots == [] && calls == []
      ensures |size| > 0 ==>
        Outcome(slots, calls) == Grow([], Extents(Zeros(|size|), Zeros(|size|), size, size), [], 0, init)
    {
      dims := Zeros(|size|);
      calls := Insert(Zeros(|size|), size);
      assert dims == size;
    }

    /**
     * Insert: newSize = dims + size on every axis, InsertLevel from axis 0 with
     * a zeroed cursor, and dims := newSize once InsertLevel has finished.
     */
    method Insert(pos: seq<nat>, size: seq<nat>) returns (calls: seq<seq<int>>)
      requires Valid() && |pos| == |size| == |dims|
      requires forall d | 0 <= d < |dims| :: pos[d] <= dims[d]
      modifies this
      ensures Valid()
      ensures |dims| == |size| && forall d | 0 <= d < |size| :: dims[d] == old(dims)[d] + size[d]
      ensures |size| == 0 ==> slots == old(slots) && calls == []
      ensures |size| > 0 ==>
        Outcome(slots, calls) == Grow(old(slots), Extents(old(dims), pos, size, dims), [], 0, init)
    {
      var newSize := size;
      var index := |dims| - 1;
      while index >= 0
        invariant -1 <= index < |dims| && |newSize| == |size|
        invariant forall d | 0 <= d < |size| :: newSize[d] == size[d] + (if d > index then dims[d] else 0)
      {
        newSize := newSize[index := newSize[index] + dims[index]];
        index := index - 1;
      }
      if |size| > 0 {
        // With no axes every comparison InsertLevel makes is false and it does
        // nothing, so only the case with at least one axis calls it.
        var pp := new int[|size|](_ => 0);
        var e := Extents(dims, pos, size, newSize);
        GrowShape(slots, e, [], 0, init);
        assert pp[..0] == [];
        var r, c := InsertLevel(slots, e, pp, 0);
        slots := r;
        calls := c;
      } else {
        calls := [];
      }
      dims := newSize;
    }

    /**
     * InsertLevel at axis `level` on the slot array `a`, with the shared cursor
     * `pp` whose entries [0, level) locate `a`.  The slot array is grown to
     * newSize[level] and updated in place.
     */
    method InsertLevel(a: seq<Node<T>>, e: Extents, pp: array<int>, level: nat)
      returns (r: seq<Node<T>>, calls: seq<seq<int>>)
      requires WellFormed(e) && level < |e.dims| == pp.Length && Rect(a, e.dims, level)
      modifies pp
      ensures pp[..level] == old(pp[..level])
      ensures Outcome(r, calls) == Grow(a, e, old(pp[..level]), level, init)
      decreases |e.dims| - level, 1, 0
    {
      var p, s, d, ns := e.pos[level], e.size[level], e.dims[level], e.newSize[level];
      ghost var cur := pp[..level];
      var b := new Node<T>[ns](k => if 0 <= k < |a| then a[k] else Branch([]));
      if level + 1 < |e.dims| {
        calls := InnerLevel(a, e, pp, level, b);
      } else {
        ghost var mid := b[..];
        if s != 0 {
          ShiftUp(b, p, d, s);
        }
        SplicedSlots(mid, a, p, d, s);
        calls := InitLeaves(a, e, pp, level, b);
      }
      r := b[..];
    }

    /**
     * InsertLevel on an inner axis, with the slot array `b` already grown to
     * newSize[level]: the prefix loop, the shift, the new-block loop and the
     * suffix loop.
     */
    method InnerLevel(a: seq<Node<T>>, e: Extents, pp: array<int>, level: nat, b: array<Node<T>>)
      returns (calls: seq<seq<int>>)
      requires WellFormed(e) && level + 1 < |e.dims| == pp.Length && Rect(a, e.dims, level)
      requires b.Length == e.newSize[level] && forall k | 0 <= k < b.Length :: b[k] == if k < |a| then a[k] else Branch([])
      modifies b, pp
      ensures pp[..level] == old(pp[..level])
      ensures Outcome(b[..], calls) == GrowRange(a, e, old(pp[..level]), level, b.Length, init)
      decreases |e.dims| - level, 0, 4
    {
      var p, s, d, ns := e.pos[level], e.size[level], e.dims[level], e.newSize[level];
      ghost var cur := pp[..level];
      pp[level] := 0;
      assert pp[..level] == cur;
      calls := GrowSlots(a, e, pp, level, b, 0, p, cur, []);
      calls := ShiftAndFill(a, e, pp, level, b, cur, calls);
    }

    /**
     * What an inner axis does once its prefix loop is done: the shift (when
     * size[level] != 0), then the new-block loop and the suffix loop.
     */
    method ShiftAndFill(a: seq<Node<T>>, e: Extents, pp: array<int>, level: nat, b: array<Node<T>>,
                        ghost cur: seq<int>, calls0: seq<seq<int>>)
      returns (calls: seq<seq<int>>)
      requires WellFormed(e) && level + 1 < |e.dims| == pp.Length && Rect(a, e.dims, level)
      requires b.Length == e.newSize[level] && pp[..level] == cur
      requires Outcome(b[..e.pos[level]], calls0) == GrowRange(a, e, cur, level, e.pos[level], init)
      requires forall k | e.pos[level] <= k < b.Length :: b[k] == if k < |a| then a[k] else Branch([])
      modifies b, pp
      ensures pp[..level] == cur
      ensures Outcome(b[..], calls) == GrowRange(a, e, cur, level, b.Length, init)
      decreases |e.dims| - level, 0, 3
    {
      var p, s, d := e.pos[level], e.size[level], e.dims[level];
      ghost var mid := b[..];
      if s != 0 {
        ShiftUp(b, p, d, s);
      }
      ShiftedSlots(mid, a, p, d, s);
      assert b[..] == Shifted(mid, p, d, s);
      assert b[..p] == mid[..p];
      calls := BlockAndSuffix(a, e, pp, level, b, cur, calls0);
    }

    /** The new-block loop and the suffix loop of an inner axis, once the suffix has been shifted into place. */
    method BlockAndSuffix(a: seq<Node<T>>, e: Extents, pp: array<int>, level: nat, b: array<Node<T>>,
                          ghost cur: seq<int>, calls0: seq<seq<int>>)
      returns (calls: seq<seq<int>>)
      requires WellFormed(e) && level + 1 < |e.dims| == pp.Length && Rect(a, e.dims, level)
      requires b.Length == e.newSize[level] && pp[..level] == cur
      requires Outcome(b[..e.pos[level]], calls0) == GrowRange(a, e, cur, level, e.pos[level], init)
      requires forall k | e.pos[level] + e.size[level] <= k < b.Length :: b[k] == a[k - e.size[level]]
      modifies b, pp
      ensures pp[..level] == cur
      ensures Outcome(b[..], calls) == GrowRange(a, e, cur, level, b.Length, init)
      decreases |e.dims| - level, 0, 2
    {
      var p, s, ns := e.pos[level], e.size[level], e.newSize[level];
      pp[level] := p;
      assert pp[..level] == cur;
      calls := GrowSlots(a, e, pp, level, b, p, p + s, cur, calls0);
      pp[level] := p + s;
      assert pp[..level] == cur;
      calls := GrowSlots(a, e, pp, level, b, p + s, ns, cur, calls);
      assert b[..ns] == b[..];
    }

    /**
     * The Init loop of the last axis: for x in [pos, pos+size), with pp[level]
     * as the loop variable, Init stores its value for the cursor pp at slot x.
     */
    method InitLeaves(a: seq<Node<T>>, e: Extents, pp: array<int>, level: nat, b: array<Node<T>>)
      returns (calls: seq<seq<int>>)
      requires WellFormed(e) && level + 1 == |e.dims| == pp.Length && Rect(a, e.dims, level)
      requires b.Length == e.newSize[level]
      requires b[..e.pos[level]] == a[..e.pos[level]] && b[e.pos[level] + e.size[level]..] == a[e.pos[level]..]
      modifies b, pp
      ensures pp[..level] == old(pp[..level])
      ensures b[..] == a[..e.pos[level]] + NewLeaves(old(pp[..level]), e.pos[level], e.size[level], init) + a[e.pos[level]..]
      ensures calls == NewCursors(old(pp[..level]), e.pos[level], e.size[level])
    {
      var p, s := e.pos[level], e.size[level];
      ghost var cur := pp[..level];
      calls := [];
      pp[level] := p;
      while pp[level] < p + s
        invariant p <= pp[level] <= p + s && pp[..level] == cur
        invariant b[..p] == a[..p] && b[p + s..] == a[p..]
        invariant b[p..pp[level]] == NewLeaves(cur, p, pp[level] - p, init)
        invariant calls == NewCursors(cur, p, pp[level] - p)
        decreases p + s - pp[level]
      {
        assert pp[..] == cur + [pp[level]];
        b[pp[level]] := Leaf(init(pp[..]));
        calls := calls + [pp[..]];
        pp[level] := pp[level] + 1;
      }
      assert pp[level] == p + s <= b.Length;
      assert b[..] == b[..p] + b[p..p + s] + b[p + s..] by {
        assert b[..p + s] == b[..p] + b[p..p + s];
        assert b[..] == b[..p + s] + b[p + s..];
      }
    }

    /**
     * One of the three slot loops of an inner axis: for k in [lo, hi), with
     * pp[level] as the loop variable, InsertLevel on slot k one axis down --
     * on the slot itself in the prefix and the shifted suffix, on a fresh []
     * in the new block.
     */
    method GrowSlots(a: seq<Node<T>>, e: Extents, pp: array<int>, level: nat, b: array<Node<T>>,
                     lo: nat, hi: nat, ghost cur: seq<int>, calls0: seq<seq<int>>)
      returns (calls: seq<seq<int>>)
      requires WellFormed(e) && level + 1 < |e.dims| == pp.Length && Rect(a, e.dims, level)
      requires b.Length == e.newSize[level] && lo <= hi <= b.Length && pp[level] == lo && pp[..level] == cur
      requires hi <= e.pos[level] || e.pos[level] + e.size[level] <= lo ||
               (e.pos[level] <= lo && hi <= e.pos[level] + e.size[level])
      requires Outcome(b[..lo], calls0) == GrowRange(a, e, cur, level, lo, init)
      requires forall k | lo <= k < hi && k < e.pos[level] :: b[k] == a[k]
      requires forall k | lo <= k < hi && e.pos[level] + e.size[level] <= k :: b[k] == a[k - e.size[level]]
      modifies b, pp
      ensures pp[..level] == cur && pp[level] == hi
      ensures Outcome(b[..hi], calls) == GrowRange(a, e, cur, level, hi, init)
      ensures forall k | hi <= k < b.Length :: b[k] == old(b[k])
      decreases |e.dims| - level, 0, 1
    {
      calls := calls0;
      while pp[level] < hi
        invariant lo <= pp[level] <= hi && pp[..level] == cur
        invariant Outcome(b[..pp[level]], calls) == GrowRange(a, e, cur, level, pp[level], init)
        invariant forall i | pp[level] <= i < b.Length :: b[i] == old(b[i])
        decreases hi - pp[level]
      {
        var k := pp[level];
        var c := GrowSlotAt(a, e, pp, level, b, k);
        calls := calls + c;
        assert b[..k + 1] == b[..k] + [b[k]];
        pp[level] := k + 1;
      }
    }

    /** The body of the slot loops: InsertLevel one axis down on slot k, stored back into slot k. */
    method GrowSlotAt(a: seq<Node<T>>, e: Extents, pp: array<int>, level: nat, b: array<Node<T>>, k: nat)
      returns (calls: seq<seq<int>>)
      requires WellFormed(e) && level + 1 < |e.dims| == pp.Length && Rect(a, e.dims, level)
      requires b.Length == e.newSize[level] && k < b.Length && pp[level] == k
      requires k < e.pos[level] ==> b[k] == a[k]
      requires e.pos[level] + e.size[level] <= k ==> b[k] == a[k - e.size[level]]
      modifies b, pp
      ensures pp[..level + 1] == old(pp[..level + 1])
      ensures b[k] == Branch(GrowSlot(a, e, old(pp[..level]), level, k, init).slots)
      ensures calls == GrowSlot(a, e, old(pp[..level]), level, k, init).calls
      ensures forall i | 0 <= i < b.Length && i != k :: b[i] == old(b[i])
      decreases |e.dims| - level, 0, 0
    {
      var p, s := e.pos[level], e.size[level];
      ghost var cur := pp[..level];
      assert pp[..level + 1] == cur + [k];
      var sub;
      if k < p || p + s <= k {
        sub, calls := InsertLevel(b[k].children, e, pp, level + 1);
      } else {
        b[k] := Branch([]);
        sub, calls := InsertLevel(b[k].children, Fresh(e), pp, level + 1);
      }
      b[k] := Branch(sub);
    }
  }

  /** After the insertion every node at axis d has newSize[d] children. */
  lemma {:induction false} GrowShape<T>(a: seq<Node<T>>, e: Extents, cur: seq<int>, level: nat, init: seq<int> -> T)
    requires WellFormed(e) && level < |e.dims| && Rect(a, e.dims, level)
    ensures Rect(Grow(a, e, cur, level, init).slots, e.newSize, level)
    decreases |e.dims| - level
  {
    if level + 1 < |e.dims| {
      var p, s, ns := e.pos[level], e.size[level], e.newSize[level];
      GrowRangeAt(a, e, cur, level, ns, init);
      forall k | 0 <= k < ns
        ensures Rect(GrowSlot(a, e, cur, level, k, init).slots, e.newSize, level + 1)
      {
        if k < p {
          GrowShape(a[k].children, e, cur + [k], level + 1, init);
        } else if k < p + s {
          GrowShape([], Fresh(e), cur + [k], level + 1, init);
        } else {
          GrowShape(a[k - s].children, e, cur + [k], level + 1, init);
        }
      }
    }
  }

  /** GrowRange holds one slot per index, each the recursive call for that index. */
  lemma {:induction false} GrowRangeAt<T>(a: seq<Node<T>>, e: Extents, cur: seq<int>, level: nat, hi: nat, init: seq<int> -> T)
    requires WellFormed(e) && level + 1 < |e.dims| && Rect(a, e.dims, level) && hi <= e.newSize[level]
    ensures |GrowRange(a, e, cur, level, hi, init).slots| == hi
    ensures forall k | 0 <= k < hi ::
      GrowRange(a, e, cur, level, hi, init).slots[k] == Branch(GrowSlot(a, e, cur, level, k, init).slots)
    decreases hi
  {
    if hi > 0 {
      GrowRangeAt(a, e, cur, level, hi - 1, init);
    }
  }

  lemma CrossSplit(j: seq<int>, e: Extents, level: nat)
    requires |j| == |e.pos| == |e.size| && level < |j|
    ensures Cross(j, e, level) <==>
      (e.pos[level] <= j[level] < e.pos[level] + e.size[level]) || Cross(j, e, level + 1)
  {
    if Cross(j, e, level) {
      var d :| level <= d < |j| && e.pos[d] <= j[d] < e.pos[d] + e.size[d];
      if d > level {
        assert Cross(j, e, level + 1);
      }
    }
  }

  /**
   * The value at every new coordinate j: Init's value for j when j lies in the
   * cross, otherwise the old value at Unshift(j), which lies in the old box.
   */
  /** GrowCells on the last axis, where Grow splices the new leaves into the slot array. */
  lemma GrowCellsLast<T>(a: seq<Node<T>>, e: Extents, cur: seq<int>, level: nat, init: seq<int> -> T, j: seq<int>)
    requires WellFormed(e) && level + 1 == |e.dims| && Rect(a, e.dims, level)
    requires |j| == |e.dims| && |cur| == level && j[..level] == cur && InBox(j, e.newSize, level)
    requires Rect(Grow(a, e, cur, level, init).slots, e.newSize, level)
    ensures Cross(j, e, level) ==> Cell(Grow(a, e, cur, level, init).slots, e.newSize, j, level) == init(j)
    ensures !Cross(j, e, level) ==>
      InBox(Unshift(j, e), e.dims, level) &&
      Cell(Grow(a, e, cur, level, init).slots, e.newSize, j, level) == Cell(a, e.dims, Unshift(j, e), level)
  {
    var p, s, k := e.pos[level], e.size[level], j[level];
    var g := Grow(a, e, cur, level, init).slots;
    var u := Unshift(j, e);
    CrossSplit(j, e, level);
    assert !Cross(j, e, level + 1);
    if k < p {
      assert g[k] == a[k];
    } else if k < p + s {
      assert j == cur + [k];
      assert g[k] == Leaf(init(cur + [k]));
    } else {
      assert g[k] == a[k - s];
    }
  }

  lemma {:induction false} GrowCells<T>(a: seq<Node<T>>, e: Extents, cur: seq<int>, level: nat, init: seq<int> -> T, j: seq<int>)
    requires WellFormed(e) && level < |e.dims| && Rect(a, e.dims, level)
    requires |j| == |e.dims| && |cur| == level && j[..level] == cur && InBox(j, e.newSize, level)
    ensures Rect(Grow(a, e, cur, level, init).slots, e.newSize, level)
    ensures Cross(j, e, level) ==> Cell(Grow(a, e, cur, level, init).slots, e.newSize, j, level) == init(j)
    ensures !Cross(j, e, level) ==>
      InBox(Unshift(j, e), e.dims, level) &&
      Cell(Grow(a, e, cur, level, init).slots, e.newSize, j, level) == Cell(a, e.dims, Unshift(j, e), level)
    decreases |e.dims| - level, 1
  {
    if level + 1 == |e.dims| {
      GrowShape(a, e, cur, level, init);
      GrowCellsLast(a, e, cur, level, init, j);
    } else {
      GrowCellsInner(a, e, cur, level, init, j);
    }
  }

  /** The converse of GrowCells: every old cell reappears, at its shifted coordinate, after the insertion. */
  lemma GrowKeepsOld<T>(a: seq<Node<T>>, e: Extents, cur: seq<int>, level: nat, init: seq<int> -> T, i: seq<int>)
    requires WellFormed(e) && level < |e.dims| && Rect(a, e.dims, level)
    requires |i| == |e.dims| && |cur| == level && Shift(i, e)[..level] == cur && InBox(i, e.dims, level)
    ensures InBox(Shift(i, e), e.newSize, level) && Rect(Grow(a, e, cur, level, init).slots, e.newSize, level)
    ensures Cell(Grow(a, e, cur, level, init).slots, e.newSize, Shift(i, e), level) == Cell(a, e.dims, i, level)
  {
    var j := Shift(i, e);
    assert Unshift(j, e) == i;
    assert !Cross(j, e, level);
    GrowCells(a, e, cur, level, init, j);
  }

  /** GrowCells on an inner axis: slot j[level] is the recursive call on the old slot it came from, or on a fresh []. */
  lemma {:induction false} GrowCellsInner<T>(a: seq<Node<T>>, e: Extents, cur: seq<int>, level: nat, init: seq<int> -> T, j: seq<int>)
    requires WellFormed(e) && level + 1 < |e.dims| && Rect(a, e.dims, level)
    requires |j| == |e.dims| && |cur| == level && j[..level] == cur && InBox(j, e.newSize, level)
    ensures Rect(Grow(a, e, cur, level, init).slots, e.newSize, level)
    ensures Cross(j, e, level) ==> Cell(Grow(a, e, cur, level, init).slots, e.newSize, j, level) == init(j)
    ensures !Cross(j, e, level) ==>
      InBox(Unshift(j, e), e.dims, level) &&
      Cell(Grow(a, e, cur, level, init).slots, e.newSize, j, level) == Cell(a, e.dims, Unshift(j, e), level)
    decreases |e.dims| - level, 0
  {
    GrowShape(a, e, cur, level, init);
    var p, s, k := e.pos[level], e.size[level], j[level];
    CrossSplit(j, e, level);
    GrowRangeAt(a, e, cur, level, e.newSize[level], init);
    assert j[..level + 1] == cur + [k];
    if k < p || p + s <= k {
      var k' := if k < p then k else k - s;
      GrowCells(a[k'].children, e, cur + [k], level + 1, init, j);
    } else {
      assert Cross(j, Fresh(e), level + 1) by {
        assert Fresh(e).pos[level + 1] <= j[level + 1] < Fresh(e).pos[level + 1] + Fresh(e).size[level + 1];
      }
      GrowCells([], Fresh(e), cur + [k], level + 1, init, j);
    }
  }


  /** Every cursor Init receives is a new coordinate in the cross, below the current prefix. */
  lemma {:induction false} GrowCallsSound<T>(a: seq<Node<T>>, e: Extents, cur: seq<int>, level: nat, init: seq<int> -> T)
    requires WellFormed(e) && level < |e.dims| && Rect(a, e.dims, level) && |cur| == level
    ensures forall c | c in Grow(a, e, cur, level, init).calls :: InitTarget(c, e, cur, level)
    decreases |e.dims| - level, 1
  {
    var p, s := e.pos[level], e.size[level];
    if level + 1 == |e.dims| {
      var cs := NewCursors(cur, p, s);
      forall i | 0 <= i < |cs|
        ensures InitTarget(cs[i], e, cur, level)
      {
        assert cs[i][..level] == cur;
        assert e.pos[level] <= cs[i][level] < e.pos[level] + e.size[level];
      }
    } else {
      GrowRangeCallsSound(a, e, cur, level, e.newSize[level], init);
    }
  }

  lemma {:induction false} GrowRangeCallsSound<T>(a: seq<Node<T>>, e: Extents, cur: seq<int>, level: nat, hi: nat, init: seq<int> -> T)
    requires WellFormed(e) && level + 1 < |e.dims| && Rect(a, e.dims, level) && hi <= e.newSize[level] && |cur| == level
    ensures forall c | c in GrowRange(a, e, cur, level, hi, init).calls :: InitTarget(c, e, cur, level) && c[level] < hi
    decreases |e.dims| - level, 0, hi
  {
    if hi > 0 {
      var k, p, s := hi - 1, e.pos[level], e.size[level];
      GrowRangeCallsSound(a, e, cur, level, k, init);
      var sub := if k < p || p + s <= k then e else Fresh(e);
      if k < p {
        GrowCallsSound(a[k].children, e, cur + [k], level + 1, init);
      } else if k < p + s {
        GrowCallsSound([], Fresh(e), cur + [k], level + 1, init);
      } else {
        GrowCallsSound(a[k - s].children, e, cur + [k], level + 1, init);
      }
      forall c | c in GrowSlot(a, e, cur, level, k, init).calls
        ensures InitTarget(c, e, cur, level) && c[level] == k
      {
        assert InitTarget(c, sub, cur + [k], level + 1);
        assert c[..level] == (cur + [k])[..level] == cur by {
          assert c[..level] == c[..level + 1][..level];
        }
        assert c[level] == (cur + [k])[level] == k by {
          assert c[level] == c[..level + 1][level];
        }
        CrossSplit(c, e, level);
        CrossSplit(c, sub, level);
      }
    }
  }

  /** Every new coordinate in the cross below the current prefix is a cursor Init receives. */
  lemma {:induction false} GrowCallsComplete<T>(a: seq<Node<T>>, e: Extents, cur: seq<int>, level: nat, init: seq<int> -> T, j: seq<int>)
    requires WellFormed(e) && level < |e.dims| && Rect(a, e.dims, level) && |cur| == level
    requires InitTarget(j, e, cur, level)
    ensures j in Grow(a, e, cur, level, init).calls
    decreases |e.dims| - level
  {
    var p, s, k := e.pos[level], e.size[level], j[level];
    CrossSplit(j, e, level);
    if level + 1 == |e.dims| {
      assert !Cross(j, e, level + 1);
      assert j == cur + [p + (k - p)];
      assert NewCursors(cur, p, s)[k - p] == j;
    } else {
      assert j[..level + 1] == cur + [k];
      if k < p {
        GrowCallsComplete(a[k].children, e, cur + [k], level + 1, init, j);
      } else if k < p + s {
        assert Cross(j, Fresh(e), level + 1) by {
          assert Fresh(e).pos[level + 1] <= j[level + 1] < Fresh(e).pos[level + 1] + Fresh(e).size[level + 1];
        }
        GrowCallsComplete([], Fresh(e), cur + [k], level + 1, init, j);
      } else {
        GrowCallsComplete(a[k - s].children, e, cur + [k], level + 1, init, j);
      }
      GrowRangeCallsIncl(a, e, cur, level, e.newSize[level], init, k);
    }
  }

  lemma {:induction false} GrowRangeCallsIncl<T>(a: seq<Node<T>>, e: Extents, cur: seq<int>, level: nat, hi: nat, init: seq<int> -> T, k: nat)
    requires WellFormed(e) && level + 1 < |e.dims| && Rect(a, e.dims, level) && hi <= e.newSize[level] && k < hi
    ensures forall c | c in GrowSlot(a, e, cur, level, k, init).calls :: c in GrowRange(a, e, cur, level, hi, init).calls
    decreases hi
  {
    if k < hi - 1 {
      GrowRangeCallsIncl(a, e, cur, level, hi - 1, init, k);
    }
  }

  lemma AscendingConcat(xs: seq<seq<int>>, ys: seq<seq<int>>)
    requires Ascending(xs) && Ascending(ys)
    requires forall x, y | x in xs && y in ys :: LexLess(x, y)
    ensures Ascending(xs + ys)
  {
    forall i, j | 0 <= i < j < |xs + ys|
      ensures LexLess((xs + ys)[i], (xs + ys)[j])
    {
      if j < |xs| {
        assert LexLess(xs[i], xs[j]);
      } else if i < |xs| {
        assert (xs + ys)[j] == ys[j - |xs|];
        assert xs[i] in xs;
      } else {
        assert LexLess(ys[i - |xs|], ys[j - |xs|]);
      }
    }
  }

  /** Init is called in strictly ascending row-major order of the cursor, so never twice for the same cell. */
  lemma {:induction false} GrowCallsAscending<T>(a: seq<Node<T>>, e: Extents, cur: seq<int>, level: nat, init: seq<int> -> T)
    requires WellFormed(e) && level < |e.dims| && Rect(a, e.dims, level) && |cur| == level
    ensures Ascending(Grow(a, e, cur, level, init).calls)
    decreases |e.dims| - level, 1
  {
    var p, s := e.pos[level], e.size[level];
    if level + 1 == |e.dims| {
      var cs := NewCursors(cur, p, s);
      forall i, j | 0 <= i < j < |cs|
        ensures LexLess(cs[i], cs[j])
      {
        assert cs[i][..level] == cur == cs[j][..level];
        assert cs[i][level] < cs[j][level];
      }
    } else {
      GrowRangeCallsAscending(a, e, cur, level, e.newSize[level], init);
    }
  }

  lemma {:induction false} GrowRangeCallsAscending<T>(a: seq<Node<T>>, e: Extents, cur: seq<int>, level: nat, hi: nat, init: seq<int> -> T)
    requires WellFormed(e) && level + 1 < |e.dims| && Rect(a, e.dims, level) && hi <= e.newSize[level] && |cur| == level
    ensures Ascending(GrowRange(a, e, cur, level, hi, init).calls)
    decreases |e.dims| - level, 0, hi
  {
    if hi > 0 {
      var k, p, s := hi - 1, e.pos[level], e.size[level];
      var sub := if k < p || p + s <= k then e else Fresh(e);
      GrowRangeCallsAscending(a, e, cur, level, k, init);
      GrowRangeCallsSound(a, e, cur, level, k, init);
      if k < p {
        GrowCallsAscending(a[k].children, e, cur + [k], level + 1, init);
        GrowCallsSound(a[k].children, e, cur + [k], level + 1, init);
      } else if k < p + s {
        GrowCallsAscending([], Fresh(e), cur + [k], level + 1, init);
        GrowCallsSound([], Fresh(e), cur + [k], level + 1, init);
      } else {
        GrowCallsAscending(a[k - s].children, e, cur + [k], level + 1, init);
        GrowCallsSound(a[k - s].children, e, cur + [k], level + 1, init);
      }
      var xs := GrowRange(a, e, cur, level, k, init).calls;
      var ys := GrowSlot(a, e, cur, level, k, init).calls;
      forall x, y | x in xs && y in ys
        ensures LexLess(x, y)
      {
        assert InitTarget(y, sub, cur + [k], level + 1);
        assert y[..level] == cur by {
          assert y[..level] == y[..level + 1][..level];
        }
        assert y[level] == k by {
          assert y[level] == y[..level + 1][level];
        }
        assert x[..level] == y[..level] && x[level] < y[level];
      }
      AscendingConcat(xs, ys);
    }
  }

  /** Number of slots of the new block before index hi. */
  function BlockBefore(p: nat, s: nat, hi: nat): nat
  {
    if hi <= p then 0 else if hi <= p + s then hi - p else s
  }

  /** Init is called prod(newSize) - prod(dims) times. */
  lemma {:induction false} GrowCallsCount<T>(a: seq<Node<T>>, e: Extents, cur: seq<int>, level: nat, init: seq<int> -> T)
    requires WellFormed(e) && level < |e.dims| && Rect(a, e.dims, level)
    ensures |Grow(a, e, cur, level, init).calls| == Prod(e.newSize, level) - Prod(e.dims, level)
    decreases |e.dims| - level, 1
  {
    if level + 1 < |e.dims| {
      var ns, d, s := e.newSize[level], e.dims[level], e.size[level];
      var np, dp := Prod(e.newSize, level + 1), Prod(e.dims, level + 1);
      GrowRangeCallsCount(a, e, cur, level, ns, init);
      assert BlockBefore(e.pos[level], s, ns) == s;
      CountAlgebra(d, s, np, dp);
    }
  }

  lemma CountAlgebra(d: int, s: int, np: int, dp: int)
    ensures (d + s) * (np - dp) + s * dp == (d + s) * np - d * dp
  {
    assert (d + s) * (np - dp) == (d + s) * np - (d + s) * dp;
    assert (d + s) * dp == d * dp + s * dp;
  }

  lemma MulSucc(k: int, c: int)
    ensures (k + 1) * c == k * c + c
  {
  }

  lemma MulLe(a: nat, b: nat, c: nat, d: nat)
    requires a <= b && c <= d
    ensures a * c <= b * d
  {
    assert a * c <= b * c;
    assert b * c <= b * d;
  }

  lemma {:induction false} GrowRangeCallsCount<T>(a: seq<Node<T>>, e: Extents, cur: seq<int>, level: nat, hi: nat, init: seq<int> -> T)
    requires WellFormed(e) && level + 1 < |e.dims| && Rect(a, e.dims, level) && hi <= e.newSize[level]
    ensures |GrowRange(a, e, cur, level, hi, init).calls| ==
      hi * (Prod(e.newSize, level + 1) - Prod(e.dims, level + 1)) +
      BlockBefore(e.pos[level], e.size[level], hi) * Prod(e.dims, level + 1)
    decreases |e.dims| - level, 0, hi
  {
    if hi > 0 {
      var np, dp := Prod(e.newSize, level + 1), Prod(e.dims, level + 1);
      var p, s, k := e.pos[level], e.size[level], hi - 1;
      GrowRangeCallsCount(a, e, cur, level, k, init);
      var slot := |GrowSlot(a, e, cur, level, k, init).calls|;
      assert |GrowRange(a, e, cur, level, hi, init).calls| == |GrowRange(a, e, cur, level, k, init).calls| + slot;
      MulSucc(k, np as int - dp);
      if k < p {
        GrowCallsCount(a[k].children, e, cur + [k], level + 1, init);
      } else if k < p + s {
        GrowCallsCount([], Fresh(e), cur + [k], level + 1, init);
        assert Prod(Fresh(e).dims, level + 1) == 0;
        assert slot == np;
        assert BlockBefore(p, s, hi) == BlockBefore(p, s, k) + 1;
        MulSucc(BlockBefore(p, s, k), dp);
      } else {
        GrowCallsCount(a[k - s].children, e, cur + [k], level + 1, init);
      }
    }
  }

  lemma {:induction false} ProdMonotone(e: Extents, from: nat)
    requires WellFormed(e)
    ensures Prod(e.dims, from) <= Prod(e.newSize, from)
    decreases |e.dims| - from
  {
    if from < |e.dims| {
      ProdMonotone(e, from + 1);
      MulLe(e.dims[from], e.newSize[from], Prod(e.dims, from + 1), Prod(e.newSize, from + 1));
    }
  }

  /** With size all zero nothing moves and Init is never called. */
  lemma {:induction false} GrowNoOp<T>(a: seq<Node<T>>, e: Extents, cur: seq<int>, level: nat, init: seq<int> -> T)
    requires WellFormed(e) && level < |e.dims| && Rect(a, e.dims, level)
    requires forall d | 0 <= d < |e.size| :: e.size[d] == 0
    ensures Grow(a, e, cur, level, init) == Outcome(a, [])
    decreases |e.dims| - level, 1
  {
    var p := e.pos[level];
    if level + 1 == |e.dims| {
      assert a[..p] + [] + a[p..] == a;
    } else {
      GrowRangeNoOp(a, e, cur, level, e.newSize[level], init);
      assert a[..e.newSize[level]] == a;
    }
  }

  lemma {:induction false} GrowRangeNoOp<T>(a: seq<Node<T>>, e: Extents, cur: seq<int>, level: nat, hi: nat, init: seq<int> -> T)
    requires WellFormed(e) && level + 1 < |e.dims| && Rect(a, e.dims, level) && hi <= e.newSize[level]
    requires forall d | 0 <= d < |e.size| :: e.size[d] == 0
    ensures GrowRange(a, e, cur, level, hi, init) == Outcome(a[..hi], [])
    decreases |e.dims| - level, 0, hi
  {
    if hi > 0 {
      var k := hi - 1;
      GrowRangeNoOp(a, e, cur, level, k, init);
      if k < e.pos[level] {
        GrowNoOp(a[k].children, e, cur + [k], level + 1, init);
      } else {
        GrowNoOp(a[k].children, e, cur + [k], level + 1, init);
      }
      assert a[..hi] == a[..k] + [a[k]];
    }
  }
}
