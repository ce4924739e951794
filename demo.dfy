/**
 * The demo at the end of qedarray.js: a 2-D QEDArray whose Init stores
 * (pos[0]+1) * (pos[1]+1), initialised to 2x3 and then grown by 3 rows and 2
 * columns at (1, 1).
 */
module QedArrayDemo {
  import opened QedArray

  /** The demo's Init: the product of the two coordinates plus one (0 for a cursor of fewer than two axes). */
  function DemoInit(pos: seq<int>): int
  {
    if |pos| < 2 then 0 else (pos[0] + 1) * (pos[1] + 1)
  }

  /** A row of leaves. */
  function Row(r: seq<int>): seq<Node<int>>
  {
    seq(|r|, i requires 0 <= i < |r| => Leaf(r[i]))
  }

  /** (r+1) * (c+1) for the columns c in [p, p+s). */
  function Products(r: int, p: int, s: nat): seq<int>
  {
    seq(s, i => (r + 1) * (p + i + 1))
  }

  /** The array after InitArray([2, 3]). */
  const Initial: seq<Node<int>> := [Branch(Row([1, 2, 3])), Branch(Row([2, 4, 6]))]

  /** The array after Insert([1, 1], [3, 2]) on Initial. */
  const Grown: seq<Node<int>> :=
    [Branch(Row([1, 2, 3, 2, 3])), Branch(Row([2, 4, 6, 8, 10])), Branch(Row([3, 6, 9, 12, 15])),
     Branch(Row([4, 8, 12, 16, 20])), Branch(Row([2, 10, 15, 4, 6]))]

  const InsertExtents: Extents := Extents([2, 3], [1, 1], [3, 2], [5, 5])

  /** The leaves Init writes into row r at the columns [p, p+s). */
  lemma DemoLeaves(r: int, p: nat, s: nat)
    ensures NewLeaves([r], p, s, DemoInit) == Row(Products(r, p, s))
  {
    forall i | 0 <= i < s
      ensures NewLeaves([r], p, s, DemoInit)[i] == Row(Products(r, p, s))[i]
    {
      assert [r] + [p + i] == [r, p + i];
      assert NewLeaves([r], p, s, DemoInit)[i] == Leaf(DemoInit([r] + [p + i]));
      assert DemoInit([r, p + i]) == (r + 1) * (p + i + 1);
      assert Products(r, p, s)[i] == (r + 1) * (p + i + 1);
    }
  }

  /** InitArray([2, 3]) yields [[1, 2, 3], [2, 4, 6]]. */
  lemma DemoInitArray()
    ensures Grow([], Extents([0, 0], [0, 0], [2, 3], [2, 3]), [], 0, DemoInit).slots == Initial
  {
    var e := Extents([0, 0], [0, 0], [2, 3], [2, 3]);
    var empty: seq<Node<int>> := [];
    assert Fresh(e) == e;
    DemoLeaves(0, 0, 3);
    DemoLeaves(1, 0, 3);
    assert Products(0, 0, 3) == [1, 2, 3];
    assert Products(1, 0, 3) == [2, 4, 6];
    assert [] + [0] == [0] && [] + [1] == [1];
    assert Grow(empty, e, [0], 1, DemoInit).slots == empty[..0] + NewLeaves([0], 0, 3, DemoInit) + empty[0..];
    assert GrowSlot([], e, [], 0, 0, DemoInit).slots == Row([1, 2, 3]);
    assert GrowSlot([], e, [], 0, 1, DemoInit).slots == Row([2, 4, 6]);
    assert GrowRange([], e, [], 0, 1, DemoInit).slots == [Branch(Row([1, 2, 3]))];
  }

  /** Row 0 lies in the untouched prefix: Init fills columns 1 and 2 and the old columns 1, 2 move to 3, 4. */
  lemma DemoPrefixRow()
    ensures GrowSlot(Initial, InsertExtents, [], 0, 0, DemoInit).slots == Row([1, 2, 3, 2, 3])
  {
    DemoLeaves(0, 1, 2);
    assert [] + [0] == [0];
    assert Products(0, 1, 2) == [2, 3];
    assert Row([1]) + Row([2, 3]) + Row([2, 3]) == Row([1, 2, 3, 2, 3]);
  }

  /** Row 4 is old row 1 shifted down by 3, with Init filling columns 1 and 2. */
  lemma DemoSuffixRow()
    ensures GrowSlot(Initial, InsertExtents, [], 0, 4, DemoInit).slots == Row([2, 10, 15, 4, 6])
  {
    DemoLeaves(4, 1, 2);
    assert [] + [4] == [4];
    assert Products(4, 1, 2) == [10, 15];
    assert Row([2]) + Row([10, 15]) + Row([4, 6]) == Row([2, 10, 15, 4, 6]);
  }

  /** Rows 1 to 3 are new: Init fills every column. */
  lemma DemoBlockRow(r: nat)
    requires 1 <= r <= 3
    ensures GrowSlot(Initial, InsertExtents, [], 0, r, DemoInit).slots == Row(Products(r, 0, 5))
  {
    var empty: seq<Node<int>> := [];
    var f := Fresh(InsertExtents);
    assert f == Extents([0, 0], [0, 0], [5, 5], [5, 5]);
    DemoLeaves(r, 0, 5);
    assert [] + [r] == [r];
    assert Grow(empty, f, [r], 1, DemoInit).slots == empty[..0] + NewLeaves([r], 0, 5, DemoInit) + empty[0..];
  }

  /** Insert([1, 1], [3, 2]) on [[1, 2, 3], [2, 4, 6]] yields the 5x5 array of the demo. */
  lemma DemoInsert()
    ensures Grow(Initial, InsertExtents, [], 0, DemoInit).slots == Grown
  {
    var g := Grow(Initial, InsertExtents, [], 0, DemoInit).slots;
    GrowRangeAt(Initial, InsertExtents, [], 0, 5, DemoInit);
    DemoPrefixRow();
    DemoBlockRow(1);
    DemoBlockRow(2);
    DemoBlockRow(3);
    DemoSuffixRow();
    assert Products(1, 0, 5) == [2, 4, 6, 8, 10];
    assert Products(2, 0, 5) == [3, 6, 9, 12, 15];
    assert Products(3, 0, 5) == [4, 8, 12, 16, 20];
    assert g[0] == Grown[0] && g[1] == Grown[1] && g[2] == Grown[2] && g[3] == Grown[3] && g[4] == Grown[4];
  }

  /** The demo run on the class: InitArray([2, 3]), then Insert([1, 1], [3, 2]). */
  method RunDemo() returns (first: seq<Node<int>>, second: seq<Node<int>>)
    ensures first == Initial && second == Grown
  {
    var q := new QEDArray(DemoInit);
    var calls := q.InitArray([2, 3]);
    assert Zeros(2) == [0, 0];
    DemoInitArray();
    first := q.slots;
    assert q.dims == [2, 3];
    calls := q.Insert([1, 1], [3, 2]);
    assert q.dims == [5, 5];
    DemoInsert();
    second := q.slots;
  }
}
