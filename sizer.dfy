/**
 * Sizer (sizer.cpp): a node of the layout's sizing tree.  A sizer is a vector
 * of child sizers kept in ascending order of their `index`; findIndex scans
 * for an index and put looks a child up by index, creating and inserting one
 * of the requested kind when there is none.
 */
module Sizers {
  import Paths

  /** The SizerType enumeration of sizer.hpp. */
  datatype SizerType = GetterType | AdderType | MaxerType | ZoneMaxerType | MultiplierType

  /** The kind of a sizer; a Getter keeps the offset and direction masks it was built with. */
  datatype Kind = Getter(offset: int, maxDirs: int, dirs: int) | Adder | Maxer | ZoneMaxer | Multiplier

  /** The kind put creates for a requested type. */
  function KindOf(sizerType: SizerType, offset: int, maxDirs: int, dirs: int): (k: Kind)
    ensures k.Getter? <==> sizerType == GetterType
    ensures k.Getter? ==> k == Getter(offset, maxDirs, dirs)
  {
    match sizerType
    case GetterType => Getter(offset, maxDirs, dirs)
    case AdderType => Adder
    case MaxerType => Maxer
    case ZoneMaxerType => ZoneMaxer
    case MultiplierType => Multiplier
  }

  /** Strictly ascending: no two children share an index. */
  predicate Ascending(s: seq<int>)
  {
    forall i, j :: 0 <= i < j < |s| ==> s[i] < s[j]
  }

  /** The first position whose entry is at least `idx`, or |s| when there is none. */
  function FirstAtLeast(s: seq<int>, idx: int): (p: nat)
    ensures p <= |s|
  {
    if |s| == 0 || s[0] >= idx then 0 else 1 + FirstAtLeast(s[1..], idx)
  }

  /** What findIndex(idx, false) returns: the position of `idx`, or -1. */
  function PositionOf(s: seq<int>, idx: int): int
  {
    var p := FirstAtLeast(s, idx);
    if p < |s| && s[p] == idx then p else -1
  }

  /** `idx` inserted where put inserts it. */
  function InsertedAt(s: seq<int>, idx: int): seq<int>
  {
    var p := FirstAtLeast(s, idx);
    s[..p] + [idx] + s[p..]
  }

  /** The first position at or past `idx`: every entry before it is smaller, and the entry there (if any) is not. */
  lemma {:induction false} FirstAtLeastIsFirst(s: seq<int>, idx: int)
    ensures forall i :: 0 <= i < FirstAtLeast(s, idx) ==> s[i] < idx
    ensures FirstAtLeast(s, idx) < |s| ==> s[FirstAtLeast(s, idx)] >= idx
  {
    if |s| > 0 && s[0] < idx {
      FirstAtLeastIsFirst(s[1..], idx);
      forall i | 0 < i < FirstAtLeast(s, idx)
        ensures s[i] < idx
      {
        assert s[i] == s[1..][i - 1];
      }
    }
  }

  /** On ascending children, findIndex(idx, false) finds `idx` exactly when some child has it. */
  lemma PositionOfFinds(s: seq<int>, idx: int)
    requires Ascending(s)
    ensures PositionOf(s, idx) != -1 <==> idx in s
    ensures PositionOf(s, idx) != -1 ==> 0 <= PositionOf(s, idx) < |s| && s[PositionOf(s, idx)] == idx
  {
    FirstAtLeastIsFirst(s, idx);
  }

  /** The entries of s[..p] + [x] + s[p..], position by position. */
  lemma InsertedElements(s: seq<int>, p: nat, x: int)
    requires p <= |s|
    ensures var r := s[..p] + [x] + s[p..];
      |r| == |s| + 1 && r[p] == x &&
      (forall i :: 0 <= i < p ==> r[i] == s[i]) &&
      (forall i :: p < i <= |s| ==> r[i] == s[i - 1])
  {
  }

  /** Inserting an absent index at the insertion point keeps the children ascending and adds just that index. */
  lemma InsertKeepsAscending(s: seq<int>, idx: int)
    requires Ascending(s) && idx !in s
    ensures Ascending(InsertedAt(s, idx))
    ensures |InsertedAt(s, idx)| == |s| + 1 && idx in InsertedAt(s, idx)
    ensures forall x :: x in s ==> x in InsertedAt(s, idx)
  {
    FirstAtLeastIsFirst(s, idx);
    var p := FirstAtLeast(s, idx);
    var r := InsertedAt(s, idx);
    InsertedElements(s, p, idx);
    assert p < |s| ==> s[p] > idx;
    forall i, j | 0 <= i < j < |r|
      ensures r[i] < r[j]
    {
      if j <= p {
      } else if i < p {
        assert r[i] < idx && s[p] <= s[j - 1];
      } else if i > p {
        assert r[i] == s[i - 1] && r[j] == s[j - 1];
      }
    }
  }

  /** The indices of a list of sizers, in order. */
  function Indices(c: seq<Sizer>): seq<int>
  {
    seq(|c|, i requires 0 <= i < |c| => c[i].index)
  }

  lemma IndicesSplit(c: seq<Sizer>, p: nat, x: Sizer)
    requires p <= |c|
    ensures Indices(c[..p] + [x] + c[p..]) == Indices(c)[..p] + [x.index] + Indices(c)[p..]
  {
    var d := c[..p] + [x] + c[p..];
    var s := Indices(c);
    InsertedElements(s, p, x.index);
    assert forall i :: 0 <= i < |d| ==> d[i] == if i < p then c[i] else if i == p then x else c[i - 1];
  }

  class Sizer {
    const index: int
    const kind: Kind
    var children: seq<Sizer>

    ghost predicate Valid()
      reads this
    {
      Ascending(Indices(children))
    }

    /** A sizer starts with no children. */
    constructor (index: int, kind: Kind)
      ensures this.index == index && this.kind == kind && children == [] && Valid()
    {
      this.index := index;
      this.kind := kind;
      children := [];
    }

    /**
     * findIndex: scans while the child's index is below `idx`; returns that
     * position when locationFlag is set, otherwise the position only when the
     * child there has exactly `idx`, and -1 when not.
     */
    method FindIndex(idx: int, locationFlag: bool) returns (ndx: int)
      ensures locationFlag ==> ndx == FirstAtLeast(Indices(children), idx)
      ensures !locationFlag ==> ndx == PositionOf(Indices(children), idx)
      ensures locationFlag ==> 0 <= ndx <= |children|
    {
      var s := Indices(children);
      FirstAtLeastIsFirst(s, idx);
      ndx := 0;
      var numSizers := |children|;
      while ndx < numSizers && children[ndx].index < idx
        invariant 0 <= ndx <= numSizers && ndx <= FirstAtLeast(s, idx)
      {
        ndx := ndx + 1;
      }
      assert ndx < numSizers ==> s[ndx] == children[ndx].index;
      if !(locationFlag || (ndx < numSizers && children[ndx].index == idx)) {
        ndx := -1;
      }
    }

    /**
     * put: the child with `idx`, or a new child of the requested kind
     * inserted at the insertion point.  The path gets `idx` when byIndex is
     * set, else the child's position.
     */
    method Put(sizerType: SizerType, idx: int, offset: int, maxDirs: int, dirs: int, byIndex: bool, sizerPath: Paths.Path)
      returns (child: Sizer, path: Paths.Path)
      requires Valid()
      modifies this
      ensures Valid()
      ensures var p := FirstAtLeast(Indices(old(children)), idx);
        path == Paths.Concat(sizerPath, if byIndex then idx else p) &&
        if idx in Indices(old(children)) then
          children == old(children) && p < |children| && child == children[p]
        else
          fresh(child) && child.index == idx && child.kind == KindOf(sizerType, offset, maxDirs, dirs) &&
          child.children == [] && children == old(children[..p]) + [child] + old(children[p..])
      ensures child.index == idx && Indices(children) == if idx in Indices(old(children)) then Indices(old(children)) else InsertedAt(Indices(old(children)), idx)
    {
      var ndx := FindIndex(idx, true);
      PositionOfFinds(Indices(children), idx);
      path := Paths.Concat(sizerPath, if byIndex then idx else ndx);
      if ndx < |children| && children[ndx].index == idx {
        child := children[ndx];
      } else {
        child := new Sizer(idx, KindOf(sizerType, offset, maxDirs, dirs));
        IndicesSplit(children, ndx, child);
        InsertKeepsAscending(Indices(children), idx);
        children := children[..ndx] + [child] + children[ndx..];
      }
    }
  }

  /** Adder::process and Maxer::process; the base Sizer::process has no definition, so only these two kinds combine. */
  function Process(kind: Kind, area1: int, area2: int): (r: int)
    requires kind.Adder? || kind.Maxer?
    ensures kind.Maxer? ==> r >= area1 && r >= area2 && (r == area1 || r == area2)
  {
    if kind.Adder? then area1 + area2 else if area1 >= area2 then area1 else area2
  }

  /** Both combinations are commutative and associative, so a row of areas folds to the same size in any grouping. */
  lemma ProcessCombines(kind: Kind, a: int, b: int, c: int)
    requires kind.Adder? || kind.Maxer?
    ensures Process(kind, a, b) == Process(kind, b, a)
    ensures Process(kind, Process(kind, a, b), c) == Process(kind, a, Process(kind, b, c))
    ensures kind.Adder? ==> Process(kind, a, b) - b == a
  {
  }
}
