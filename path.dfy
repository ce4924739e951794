/**
 * Path (path.cpp): a vector of ints used as a path of child indices.  A
 * Path is a value: the copy constructor copies, concat returns a new Path
 * and trim builds a fresh one with two copy loops.
 */
module Paths {
  type Path = seq<int>

  /** Path(int): the path holding the single element `value`. */
  function Single(value: int): (p: Path)
    ensures |p| == 1 && p[0] == value
  {
    [value]
  }

  /** concat: a copy of `p` with `value` appended; `p` itself is a value and is unchanged. */
  function Concat(p: Path, value: int): (r: Path)
    ensures |r| == |p| + 1 && r[..|p|] == p && r[|p|] == value
  {
    p + [value]
  }

  /**
   * trim(startIndex, range) folds a negative start into the range, then
   * clamps the range at the end of the path.  The result is the start and
   * range the copy loops use.
   */
  function Normalized(n: nat, startIndex: int, range: int): (sr: (int, int))
    ensures sr.0 >= 0 && sr.0 + sr.1 <= n
    ensures sr.0 == if startIndex < 0 then 0 else startIndex
    ensures sr.0 + sr.1 == if startIndex + range > n then n else startIndex + range
  {
    var s := if startIndex < 0 then 0 else startIndex;
    var r := if startIndex < 0 then range + startIndex else range;
    if s + r > n then (s, n - s) else (s, r)
  }

  /**
   * The copy loops read indices below the start and from start + range on;
   * they stay inside the path when the start is at most its size and
   * start + range is not negative.
   */
  predicate InBounds(n: nat, startIndex: int, range: int)
  {
    startIndex <= n && startIndex + range >= 0
  }

  /** What trim(startIndex, range) is meant to return: the elements before the start, then those from start + range on. */
  function Trimmed(p: Path, startIndex: int, range: int): Path
    requires InBounds(|p|, startIndex, range)
  {
    var sr := Normalized(|p|, startIndex, range);
    p[..sr.0] + p[sr.0 + sr.1..]
  }

  /** trim(startIndex, range) with the copies appended to the result, as the loops evidently intend. */
  method Trim(p: Path, startIndex: int, range: int) returns (resized: Path)
    requires InBounds(|p|, startIndex, range)
    ensures resized == Trimmed(p, startIndex, range)
  {
    var numpath := |p|;
    var start, rng := startIndex, range;
    if start < 0 {
      rng := rng + start;
      start := 0;
    }
    if start + rng > numpath {
      rng := numpath - start;
    }
    resized := [];
    var ndx := 0;
    while ndx < start
      invariant 0 <= ndx <= start
      invariant resized == p[..ndx]
    {
      resized := resized + [p[ndx]];
      ndx := ndx + 1;
    }
    ndx := start + rng;
    while ndx < numpath
      invariant start + rng <= ndx <= numpath
      invariant resized == p[..start] + p[start + rng..ndx]
    {
      resized := resized + [p[ndx]];
      ndx := ndx + 1;
    }
  }

  /**
   * A vector as trim uses it: its size and the storage reserve provides.
   * operator[] writes storage without changing the size.
   */
  datatype Vector = Vector(size: nat, storage: seq<int>)

  /**
   * trim(startIndex, range) as written: reserve gives storage but leaves
   * the size 0, and the copies are written through operator[] past the
   * size, so the Path returned holds the first `size` elements: none.
   */
  method TrimAsWritten(p: Path, startIndex: int, range: int) returns (resized: Path, v: Vector)
    requires InBounds(|p|, startIndex, range)
    ensures v.size == 0 && resized == v.storage[..v.size] && resized == []
    ensures v.storage == Trimmed(p, startIndex, range)
  {
    var numpath := |p|;
    var start, rng := startIndex, range;
    if start < 0 {
      rng := rng + start;
      start := 0;
    }
    if start + rng > numpath {
      rng := numpath - start;
    }
    v := Vector(0, seq(numpath - rng, _ => 0));
    var count := 0;
    var ndx := 0;
    while ndx < start
      invariant 0 <= ndx <= start && count == ndx
      invariant v.size == 0 && |v.storage| == numpath - rng
      invariant v.storage[..count] == p[..ndx]
    {
      WriteExtends(v.storage, count, p[ndx]);
      v := v.(storage := v.storage[count := p[ndx]]);
      count := count + 1;
      ndx := ndx + 1;
    }
    ndx := start + rng;
    while ndx < numpath
      invariant start + rng <= ndx <= numpath && count == start + (ndx - start - rng)
      invariant v.size == 0 && |v.storage| == numpath - rng
      invariant v.storage[..count] == p[..start] + p[start + rng..ndx]
    {
      WriteSkips(v.storage, count, p, start, rng, ndx);
      v := v.(storage := v.storage[count := p[ndx]]);
      count := count + 1;
      ndx := ndx + 1;
    }
    assert v.storage[..count] == v.storage;
    resized := v.storage[..v.size];
  }

  lemma WriteExtends(s: seq<int>, i: nat, x: int)
    requires i < |s|
    ensures s[i := x][..i + 1] == s[..i] + [x]
  {
  }

  /** Writing element ndx at position count extends the copy that skips the range. */
  lemma WriteSkips(storage: seq<int>, count: nat, p: Path, start: int, rng: int, ndx: int)
    requires count < |storage| && 0 <= start <= |p| && 0 <= start + rng <= ndx < |p|
    requires storage[..count] == p[..start] + p[start + rng..ndx]
    ensures storage[count := p[ndx]][..count + 1] == p[..start] + p[start + rng..ndx + 1]
  {
    WriteExtends(storage, count, p[ndx]);
    assert p[start + rng..ndx] + [p[ndx]] == p[start + rng..ndx + 1];
  }

  /** trim(index): the first `index` elements when 0 <= index <= size, else an unchanged copy. */
  method TrimFrom(p: Path, index: int) returns (r: Path)
    ensures r == if 0 <= index <= |p| then p[..index] else p
  {
    if index >= 0 && index <= |p| {
      r := Trim(p, index, |p| - index);
      assert p[index + (|p| - index)..] == [];
    } else {
      r := p;
    }
  }

  /** The elements before the start stay in place; each later one is the element `range` further on. */
  lemma TrimmedElements(p: Path, startIndex: int, range: int)
    requires InBounds(|p|, startIndex, range)
    ensures var sr := Normalized(|p|, startIndex, range);
      |Trimmed(p, startIndex, range)| == |p| - sr.1 &&
      (forall i :: 0 <= i < sr.0 ==> Trimmed(p, startIndex, range)[i] == p[i]) &&
      (forall i :: sr.0 <= i < |p| - sr.1 ==> Trimmed(p, startIndex, range)[i] == p[i + sr.1])
  {
  }

  /** Trimming what concat appended gives the path back. */
  lemma TrimUndoesConcat(p: Path, value: int)
    ensures Trimmed(Concat(p, value), |p|, 1) == p
  {
    assert Concat(p, value)[..|p|] == p;
  }

  /** A trimmed range that is empty (after clamping) leaves the path as it was. */
  lemma TrimNothing(p: Path, startIndex: int)
    requires 0 <= startIndex <= |p|
    ensures Trimmed(p, startIndex, 0) == p
  {
    assert p[..startIndex] + p[startIndex..] == p;
  }

  /** On [1, 2, 3], trim(1, 1) as written returns an empty path where [1, 3] is intended. */
  method TrimAsWrittenLosesElements() returns (asWritten: Path, intended: Path)
    ensures asWritten == [] && intended == [1, 3]
  {
    var v;
    asWritten, v := TrimAsWritten([1, 2, 3], 1, 1);
    intended := Trim([1, 2, 3], 1, 1);
    assert [1, 2, 3][..1] + [1, 2, 3][2..] == [1, 3];
  }
}
