/**
 * The growth policy and reallocation the interpreter's dynamic buffers share
 * (memory.h): a buffer starts with no storage, grows to 8 slots on its first
 * write and doubles whenever it is full.
 */
module Memory {

  /** GROW_CAPACITY: 8 below 8, twice the capacity otherwise. */
  function GrowCapacity(capacity: nat): (r: nat)
    ensures r > capacity && r >= 8
    ensures capacity >= 8 ==> r == 2 * capacity
  {
    if capacity < 8 then 8 else capacity * 2
  }

  /** 2^k. */
  function Pow2(k: nat): (r: nat)
    ensures r >= 1
  {
    if k == 0 then 1 else 2 * Pow2(k - 1)
  }

  /** The capacity of a buffer after `n` appends to an empty one (each append grows a full buffer first). */
  function CapacityAfter(n: nat): nat
  {
    if n == 0 then 0
    else
      var c := CapacityAfter(n - 1);
      if n - 1 >= c then GrowCapacity(c) else c
  }

  /**
   * After n appends to an empty buffer the capacity is the least 8 * 2^k that
   * holds n elements: 0 for no append, and otherwise less than twice n once
   * it is past 8.
   */
  lemma {:induction false} CapacityAfterBounds(n: nat)
    ensures n == 0 ==> CapacityAfter(n) == 0
    ensures n > 0 ==> exists k: nat :: CapacityAfter(n) == 8 * Pow2(k)
    ensures n <= CapacityAfter(n)
    ensures n > 0 ==> CapacityAfter(n) < 2 * n || CapacityAfter(n) == 8
  {
    if n > 0 {
      CapacityAfterBounds(n - 1);
      var c := CapacityAfter(n - 1);
      if n == 1 {
        assert CapacityAfter(n) == 8 * Pow2(0);
      } else {
        var k: nat :| c == 8 * Pow2(k);
        if n - 1 >= c {
          assert CapacityAfter(n) == 8 * Pow2(k + 1);
        }
      }
    }
  }

  /**
   * RESIZE_ARRAY on a buffer of `oldCount` slots (none when `p` is null):
   * fresh storage of `newCount` slots whose first `oldCount` hold what `p`
   * held.  The slots past them are not specified.
   */
  method Reallocate<V(0)>(p: array?<V>, oldCount: nat, newCount: nat) returns (q: array<V>)
    requires p == null ==> oldCount == 0
    requires p != null ==> p.Length == oldCount
    requires oldCount <= newCount
    ensures fresh(q) && q.Length == newCount
    ensures p != null ==> q[..oldCount] == p[..]
  {
    q := new V[newCount];
    if p != null {
      var i := 0;
      while i < oldCount
        invariant 0 <= i <= oldCount
        invariant q[..i] == p[..i]
      {
        q[i] := p[i];
        i := i + 1;
      }
    }
  }
}
