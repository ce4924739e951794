/**
 * Values, static types and the growable value array of the interpreter
 * (value.h, value.cpp).
 */
module Value {
  import opened Memory

  /** ValueType. */
  datatype ValueType = Void | Bool | Int | Float | Obj

  /** A static type: a value type and, for objects, the identity of the object type it points to. */
  datatype Type = Type(valueType: ValueType, objType: nat)

  /** Type::equals: the value types agree and, for objects only, so do the object types. */
  predicate TypeEquals(a: Type, b: Type)
  {
    a.valueType == b.valueType && (a.valueType != Obj || a.objType == b.objType)
  }

  /** Type::equals is an equivalence, and it looks at the object type only for objects. */
  lemma TypeEqualsEquivalence(a: Type, b: Type, c: Type)
    ensures TypeEquals(a, a)
    ensures TypeEquals(a, b) ==> TypeEquals(b, a)
    ensures TypeEquals(a, b) && TypeEquals(b, c) ==> TypeEquals(a, c)
    ensures a.valueType != Obj ==> (TypeEquals(a, b) <==> a.valueType == b.valueType)
    ensures a.valueType == Obj ==> (TypeEquals(a, b) <==> a == b)
  {
  }

  datatype Comparison = Ok(sign: int) | ReadsPastEnd

  /**
   * memcmp(a, b, n) over the bytes of two strings, each stored with a
   * terminating NUL: the sign of the first differing byte among the first n
   * (from byte i on).  Reading past the terminator of either buffer before a
   * difference is found is not defined in C; the model reports ReadsPastEnd
   * there.
   */
  function Memcmp(a: seq<bv8>, b: seq<bv8>, i: nat, n: nat): (r: Comparison)
    decreases n - i
  {
    if n <= i then Ok(0)
    else
      var x, y := Byte(a, i), Byte(b, i);
      if x.None? || y.None? then ReadsPastEnd
      else if x.value < y.value then Ok(-1)
      else if x.value > y.value then Ok(1)
      else Memcmp(a, b, i + 1, n)
  }

  datatype Maybe<T> = None | Some(value: T)

  /** Byte i of a NUL-terminated buffer holding s, or None past the terminator. */
  function Byte(s: seq<bv8>, i: nat): Maybe<bv8>
  {
    if i < |s| then Some(s[i]) else if i == |s| then Some(0) else None
  }

  /** valuesCompare: memcmp of the two strings' characters over the length of the first only. */
  function ValuesCompare(a: seq<bv8>, b: seq<bv8>): Comparison
  {
    Memcmp(a, b, 0, |a|)
  }

  /**
   * Over bytes both strings have, memcmp is 0 exactly when they agree there,
   * and its sign flips when the operands are swapped.
   */
  lemma {:induction false} MemcmpSpec(a: seq<bv8>, b: seq<bv8>, i: nat, n: nat)
    requires i <= n <= |a| && n <= |b|
    ensures Memcmp(a, b, i, n).Ok?
    ensures Memcmp(a, b, i, n) == Ok(0) <==> a[i..n] == b[i..n]
    ensures Memcmp(b, a, i, n).Ok? && Memcmp(b, a, i, n).sign == -Memcmp(a, b, i, n).sign
    decreases n - i
  {
    if i < n {
      MemcmpSpec(a, b, i + 1, n);
      assert a[i..n] == [a[i]] + a[i + 1..n];
      assert b[i..n] == [b[i]] + b[i + 1..n];
    }
  }

  /**
   * The length check is absent: a string compares equal to every string it
   * is a prefix of, and a string that is shorter than the first operand is
   * compared against its terminating NUL.
   */
  lemma PrefixComparesEqual(a: seq<bv8>, rest: seq<bv8>)
    ensures ValuesCompare(a, a + rest) == Ok(0)
  {
    MemcmpSpec(a, a + rest, 0, |a|);
    assert (a + rest)[0..|a|] == a[0..|a|];
  }

  /** valuesCompare("ab", "a") compares 'b' with the NUL that ends "a". */
  lemma LongerFirstOperand()
    ensures ValuesCompare([97, 98], [97]) == Ok(1)
  {
    var a: seq<bv8>, b: seq<bv8> := [97, 98], [97];
    assert Byte(a, 0) == Some(97) && Byte(b, 0) == Some(97);
    assert Byte(a, 1) == Some(98) && Byte(b, 1) == Some(0);
    assert Memcmp(a, b, 0, 2) == Memcmp(a, b, 1, 2);
  }

  /** ValueArray: `count` values in a buffer of `capacity` slots; no buffer at all while the capacity is 0. */
  class ValueArray<V(0)> {
    var capacity: nat
    var count: nat
    var values: array?<V>

    ghost predicate Valid()
      reads this
    {
      count <= capacity && (values == null <==> capacity == 0) && (values != null ==> values.Length == capacity)
    }

    /** The values written so far, in order. */
    ghost function Contents(): seq<V>
      reads this, values
      requires Valid()
    {
      if values == null then [] else values[..count]
    }

    /** initValueArray. */
    constructor ()
      ensures Valid() && count == 0 && capacity == 0 && values == null
    {
      capacity, count, values := 0, 0, null;
    }

    /** initValueArray on an existing array (the storage it held is dropped). */
    method Init()
      modifies this
      ensures Valid() && count == 0 && capacity == 0 && values == null && Contents() == []
    {
      count := 0;
      capacity := 0;
      values := null;
    }

    /** writeValueArray: grow when full, then store at `count` and count it. */
    method Write(value: V)
      requires Valid()
      modifies this, values
      ensures Valid() && (values == old(values) || fresh(values))
      ensures Contents() == old(Contents()) + [value]
      ensures count == old(count) + 1
      ensures capacity == if old(count) >= old(capacity) then GrowCapacity(old(capacity)) else old(capacity)
    {
      var oldCapacity := capacity;
      ghost var before := Contents();
      if count >= oldCapacity {
        capacity := GrowCapacity(oldCapacity);
        values := Reallocate(values, oldCapacity, capacity);
        assert values[..count] == before;
      }
      values[count] := value;
      count := count + 1;
    }

    /** freeValueArray: release the storage and start over empty. */
    method Free()
      modifies this
      ensures Valid() && count == 0 && capacity == 0 && values == null && Contents() == []
    {
      Init();
    }
  }

  /** n writes to a fresh value array leave the n values in order and the capacity CapacityAfter(n). */
  method WriteAll<V(0)>(vs: seq<V>) returns (arr: ValueArray<V>)
    ensures fresh(arr) && arr.Valid()
    ensures arr.Contents() == vs && arr.count == |vs| && arr.capacity == CapacityAfter(|vs|)
  {
    arr := new ValueArray();
    var i := 0;
    while i < |vs|
      invariant 0 <= i <= |vs|
      invariant fresh(arr) && arr.Valid() && (arr.values == null || fresh(arr.values))
      invariant arr.Contents() == vs[..i] && arr.count == i && arr.capacity == CapacityAfter(i)
    {
      arr.Write(vs[i]);
      assert vs[..i + 1] == vs[..i] + [vs[i]];
      i := i + 1;
    }
    assert vs[..i] == vs;
  }
}
