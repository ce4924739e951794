/**
 * The rectangular initialiser of src/qedarray.js: QEDArray(dims, fn) builds a
 * nested array with dims[d] entries on axis d and a value of fn() at every
 * leaf, by the recursive initArrayIndex.
 *
 * fn takes no argument but need not return the same value every time, so the
 * model gives it the number of calls made before as its argument: the leaf
 * filled by the k-th call holds fn(k).
 */
module QedArrayRect {
  import opened QedArray

  /** The nested array initArrayIndex(index) builds when `start` calls of fn have been made before it. */
  function Build<T>(dims: seq<nat>, index: nat, start: nat, fn: nat -> T): Node<T>
    requires index <= |dims|
    decreases |dims| - index
  {
    if index == |dims| then Leaf(fn(start))
    else Branch(seq(dims[index], i requires 0 <= i < dims[index] => Build(dims, index + 1, start + i * Prod(dims, index + 1), fn)))
  }

  /** `n` has dims[d] children at every depth d >= index and a value below the last axis. */
  ghost predicate Shape<T>(n: Node<T>, dims: seq<nat>, index: nat)
    requires index <= |dims|
    decreases |dims| - index
  {
    if index == |dims| then n.Leaf?
    else (n.Branch? && |n.children| == dims[index] &&
          forall i | 0 <= i < |n.children| :: Shape(n.children[i], dims, index + 1))
  }

  /** The entry at coordinate j, reading the axes from `index` on. */
  ghost function At<T>(n: Node<T>, dims: seq<nat>, j: seq<nat>, index: nat): T
    requires index <= |dims| == |j| && Shape(n, dims, index)
    requires forall d | index <= d < |dims| :: j[d] < dims[d]
    decreases |dims| - index
  {
    if index == |dims| then n.value else At(n.children[j[index]], dims, j, index + 1)
  }

  /** The row-major rank of coordinate j among the cells below axis `index`. */
  function Offset(dims: seq<nat>, j: seq<nat>, index: nat): nat
    requires |j| == |dims| && index <= |dims|
    decreases |dims| - index
  {
    if index == |dims| then 0 else j[index] * Prod(dims, index + 1) + Offset(dims, j, index + 1)
  }

  /** The array is rectangular with extents dims from axis index on. */
  lemma {:induction false} BuildShape<T>(dims: seq<nat>, index: nat, start: nat, fn: nat -> T)
    requires index <= |dims|
    ensures Shape(Build(dims, index, start, fn), dims, index)
    decreases |dims| - index
  {
    if index < |dims| {
      var n := Build(dims, index, start, fn);
      forall i | 0 <= i < dims[index]
        ensures Shape(n.children[i], dims, index + 1)
      {
        BuildShape(dims, index + 1, start + i * Prod(dims, index + 1), fn);
      }
    }
  }

  /** Cells below one slot of axis index-1 number Prod(dims, index), and each row-major rank lies below it. */
  lemma {:induction false} OffsetBound(dims: seq<nat>, j: seq<nat>, index: nat)
    requires |j| == |dims| && index <= |dims|
    requires forall d | index <= d < |dims| :: j[d] < dims[d]
    ensures Offset(dims, j, index) < Prod(dims, index)
    decreases |dims| - index
  {
    if index < |dims| {
      OffsetBound(dims, j, index + 1);
      var p := Prod(dims, index + 1);
      var o := Offset(dims, j, index + 1);
      assert j[index] * p + o < (j[index] + 1) * p;
      assert (j[index] + 1) * p <= dims[index] * p by {
        MulMono(j[index] + 1, dims[index], p);
      }
    }
  }

  lemma MulMono(a: nat, b: nat, c: nat)
    requires a <= b
    ensures a * c <= b * c
  {
  }

  /** fn is never called when some extent is 0. */
  lemma {:induction false} ProdZero(dims: seq<nat>, index: nat, d: nat)
    requires index <= d < |dims| && dims[d] == 0
    ensures Prod(dims, index) == 0
    decreases d - index
  {
    if index < d {
      ProdZero(dims, index + 1, d);
    }
  }

  /** A lower leading digit gives a lower mixed-radix rank. */
  lemma RankLess(a: nat, b: nat, x: nat, y: nat, p: nat)
    requires a < b && x < p && y < p
    ensures a * p + x < b * p + y
  {
    MulMono(a + 1, b, p);
    assert (a + 1) * p == a * p + p;
  }

  /** The cell at coordinate j holds the value of the call numbered by its row-major rank. */
  lemma {:induction false} BuildAt<T>(dims: seq<nat>, index: nat, start: nat, fn: nat -> T, j: seq<nat>)
    requires index <= |dims| == |j|
    requires forall d | index <= d < |dims| :: j[d] < dims[d]
    ensures Shape(Build(dims, index, start, fn), dims, index)
    ensures At(Build(dims, index, start, fn), dims, j, index) == fn(start + Offset(dims, j, index))
    decreases |dims| - index
  {
    BuildShape(dims, index, start, fn);
    if index < |dims| {
      BuildAt(dims, index + 1, start + j[index] * Prod(dims, index + 1), fn, j);
    }
  }

  /** Distinct cells take distinct calls: the row-major rank is one-to-one on the box. */
  lemma {:induction false} OffsetInjective(dims: seq<nat>, j: seq<nat>, k: seq<nat>, index: nat)
    requires |j| == |k| == |dims| && index <= |dims|
    requires forall d | index <= d < |dims| :: j[d] < dims[d] && k[d] < dims[d]
    requires Offset(dims, j, index) == Offset(dims, k, index)
    ensures j[index..] == k[index..]
    decreases |dims| - index
  {
    if index < |dims| {
      var p := Prod(dims, index + 1);
      var oj, ok := Offset(dims, j, index + 1), Offset(dims, k, index + 1);
      OffsetBound(dims, j, index + 1);
      OffsetBound(dims, k, index + 1);
      if j[index] < k[index] {
        RankLess(j[index], k[index], oj, ok, p);
      } else if k[index] < j[index] {
        RankLess(k[index], j[index], ok, oj, p);
      }
      OffsetInjective(dims, j, k, index + 1);
      assert j[index..] == [j[index]] + j[index + 1..];
      assert k[index..] == [k[index]] + k[index + 1..];
    }
  }

  class QEDArray<T> {
    var dims: seq<nat>
    const fn: nat -> T
    /** The nested array (the field `array` of the source). */
    var contents: Node<T>
    /** How many times fn has been called. */
    var calls: nat

    /** QEDArray(dims, fn): store dims and fn, then array = initArrayIndex(0). */
    constructor (dims: seq<nat>, fn: nat -> T)
      ensures this.dims == dims && this.fn == fn
      ensures contents == Build(dims, 0, 0, fn) && calls == Prod(dims, 0)
    {
      this.dims := dims;
      this.fn := fn;
      calls := 0;
      new;
      contents := InitArrayIndex(0);
    }

    /** initArrayIndex: dims[index] sub-arrays built in order, or one call of fn below the last axis. */
    method InitArrayIndex(index: nat) returns (r: Node<T>)
      requires index <= |dims|
      modifies this`calls
      ensures r == Build(dims, index, old(calls), fn)
      ensures calls == old(calls) + Prod(dims, index)
      decreases |dims| - index
    {
      if index < |dims| {
        ghost var start, ds, f := calls, dims, fn;
        var slots: seq<Node<T>> := [];
        var ndx := 0;
        var p := Prod(dims, index + 1);
        while ndx < dims[index]
          invariant ds == dims && 0 <= ndx <= dims[index]
          invariant calls == start + ndx * p
          invariant slots == seq(ndx, i requires 0 <= i < ndx => Build(ds, index + 1, start + i * p, f))
        {
          var c := InitArrayIndex(index + 1);
          slots := slots + [c];
          assert (ndx + 1) * p == ndx * p + p;
          ndx := ndx + 1;
        }
        r := Branch(slots);
      } else {
        r := Leaf(fn(calls));
        calls := calls + 1;
      }
    }
  }

  /** The sample's fn, which returns "Martin" on every call. */
  function Martin(k: nat): string
  {
    "Martin"
  }

  /** The sample: new QEDArray([3, 2], () => "Martin") is a 3x2 grid of "Martin". */
  lemma Sample()
    ensures Build([3, 2], 0, 0, Martin) == Branch(seq(3, _ => Branch([Leaf("Martin"), Leaf("Martin")])))
  {
    var dims := [3, 2];
    assert Prod(dims, 2) == 1 && Prod(dims, 1) == 2;
    forall s: nat
      ensures Build(dims, 1, s, Martin) == Branch([Leaf("Martin"), Leaf("Martin")])
    {
      assert Build(dims, 2, s, Martin) == Leaf("Martin");
      assert Build(dims, 2, s + 1, Martin) == Leaf("Martin");
    }
    var g := Build(dims, 0, 0, Martin);
    assert forall i | 0 <= i < 3 :: g.children[i] == Build(dims, 1, i * 2, Martin);
  }
}
