/**
 * The CoThread of object.cpp: its value stack (`fields`, with `stackTop`
 * the number of values on it) and its list of open upvalues, the captured
 * stack slots a closure still shares with the stack.  The list is the
 * `openUpvalues` chain through `next`, held here as the sequence of its
 * nodes from the head; a stack location is the slot index it points to.
 */
module CoThreads {
  /** The CoThread constructor allocates `fields = new Value[64]` for its stack. */
  const StackSize := 64

  /** Where an upvalue's `location` points: a stack slot, or its own `closed` field. */
  datatype Location = Slot(index: int) | Closed

  /** A strictly descending sequence of slots. */
  ghost predicate Descending(s: seq<int>)
  {
    forall i, j :: 0 <= i < j < |s| ==> s[i] > s[j]
  }

  /** captureUpvalue on the slots of the list: `x` inserted in descending order, once. */
  function Insert(s: seq<int>, x: int): seq<int>
  {
    if s == [] then [x]
    else if s[0] > x then [s[0]] + Insert(s[1..], x)
    else if s[0] == x then s
    else [x] + s
  }

  /** closeUpvalues on the slots of the list: the leading slots at or above `last` dropped. */
  function DropFrom(s: seq<int>, last: int): seq<int>
  {
    if s != [] && s[0] >= last then DropFrom(s[1..], last) else s
  }

  /** Inserting adds exactly `x` to the elements. */
  lemma {:induction false} InsertElements(s: seq<int>, x: int)
    ensures forall y :: y in Insert(s, x) <==> y in s || y == x
  {
    if s != [] && s[0] > x {
      InsertElements(s[1..], x);
      assert s == [s[0]] + s[1..];
    }
  }

  /** Inserting into a descending list keeps it descending. */
  lemma {:induction false} InsertDescending(s: seq<int>, x: int)
    requires Descending(s)
    ensures Descending(Insert(s, x))
  {
    if s != [] && s[0] > x {
      InsertDescending(s[1..], x);
      InsertElements(s[1..], x);
      var r := Insert(s, x);
      forall i, j | 0 <= i < j < |r|
        ensures r[i] > r[j]
      {
        if i == 0 {
          assert r[j] in Insert(s[1..], x);
        }
      }
    }
  }

  /** A slot already in the list is not inserted again; any other one adds one entry. */
  lemma {:induction false} InsertOnce(s: seq<int>, x: int)
    requires Descending(s)
    ensures x in s ==> Insert(s, x) == s
    ensures x !in s ==> |Insert(s, x)| == |s| + 1
  {
    if s != [] && s[0] > x {
      InsertOnce(s[1..], x);
      assert x in s <==> x in s[1..];
    } else if s != [] && s[0] < x {
      assert x !in s;
    }
  }

  /** The position captureUpvalue stops at: the first slot not above `x`. */
  lemma {:induction false} InsertAt(s: seq<int>, x: int, i: int)
    requires 0 <= i <= |s| && forall k :: 0 <= k < i ==> s[k] > x
    requires i == |s| || s[i] <= x
    ensures i < |s| && s[i] == x ==> Insert(s, x) == s
    ensures !(i < |s| && s[i] == x) ==> Insert(s, x) == s[..i] + [x] + s[i..]
    decreases i
  {
    if i > 0 {
      InsertAt(s[1..], x, i - 1);
      assert s[1..][..i - 1] == s[..i][1..];
      assert s[1..][i - 1..] == s[i..];
    }
  }

  /**
   * Closing from `last` on a descending list leaves the suffix below `last`:
   * every dropped slot is at or above `last`, every kept one below it.
   */
  lemma {:induction false} DropFromSpec(s: seq<int>, last: int)
    requires Descending(s)
    ensures var r := DropFrom(s, last);
      |r| <= |s| && r == s[|s| - |r|..] && Descending(r) &&
      (forall k :: 0 <= k < |s| - |r| ==> s[k] >= last) &&
      (forall y :: y in r ==> y < last)
  {
    if s != [] && s[0] >= last {
      DropFromSpec(s[1..], last);
    }
  }

  /** An upvalue object: open while `location` is a stack slot. */
  class ObjUpvalue<V> {
    var location: Location
    var closed: V

    /** newUpvalue(slot): open at `slot`; `closed` holds the null object value `nil`. */
    constructor (slot: int, nil: V)
      ensures location == Slot(slot) && closed == nil
    {
      location := Slot(slot);
      closed := nil;
    }
  }

  /** `s` lists the slots the nodes of `us` are open at, in list order. */
  ghost predicate Tracks<V>(us: seq<ObjUpvalue<V>>, s: seq<int>)
    reads us
  {
    |us| == |s| && forall k :: 0 <= k < |s| ==> 0 <= s[k] < StackSize && us[k].location == Slot(s[k])
  }

  /** Where captureUpvalue stops without finding `x`, `x` is nowhere in the list. */
  lemma Absent(s: seq<int>, x: int, i: int)
    requires Descending(s) && 0 <= i <= |s| && forall k :: 0 <= k < i ==> s[k] > x
    requires !(i < |s| && s[i] >= x)
    ensures x !in s
  {
    forall k | 0 <= k < |s|
      ensures s[k] != x
    {
      if i < k {
        assert s[i] > s[k];
      }
    }
  }

  /** The nodes of an open descending list are distinct objects: the head occurs once. */
  lemma HeadOnce<V>(l: seq<ObjUpvalue<V>>, s: seq<int>)
    requires Tracks(l, s) && Descending(s) && |l| > 0
    ensures forall k :: 1 <= k < |l| ==> l[k] != l[0]
  {
    forall k | 1 <= k < |l|
      ensures l[k] != l[0]
    {
      assert s[0] > s[k];
    }
  }

  /** Linking node u, open at x, in at position i of the list. */
  lemma Linked<V>(l: seq<ObjUpvalue<V>>, i: int, u: ObjUpvalue<V>, s: seq<int>, x: int)
    requires Tracks(l, s) && 0 <= i <= |l|
    requires u.location == Slot(x) && 0 <= x < StackSize
    ensures Tracks(l[..i] + [u] + l[i..], s[..i] + [x] + s[i..])
  {
    var l' := l[..i] + [u] + l[i..];
    var s' := s[..i] + [x] + s[i..];
    forall k | 0 <= k < |s'|
      ensures 0 <= s'[k] < StackSize && l'[k].location == Slot(s'[k])
    {
      if k > i {
        assert l'[k] == l[k - 1] && s'[k] == s[k - 1];
      }
    }
  }

  class CoThread<V(0)> {
    var fields: array<V>
    var top: int
    var openUpvalues: seq<ObjUpvalue<V>>
    /** The slots the open upvalues point to, head first. */
    ghost var slots: seq<int>

    /** The stack lies within `fields`. */
    ghost predicate Valid()
      reads this
    {
      fields.Length == StackSize && 0 <= top <= fields.Length
    }

    /** Every node of the open list is open at a slot of `fields`, and the slots strictly descend from the head. */
    ghost predicate OpenValid()
      reads this, openUpvalues
    {
      Tracks(openUpvalues, slots) && Descending(slots)
    }

    /** The values on the stack, bottom first. */
    ghost function Stack(): seq<V>
      reads this, fields
      requires 0 <= top <= fields.Length
    {
      fields[..top]
    }

    /** CoThread(): an empty stack and no open upvalue. */
    constructor ()
      ensures Valid() && OpenValid() && Stack() == [] && openUpvalues == []
    {
      fields := new V[StackSize];
      top := 0;
      openUpvalues := [];
      slots := [];
    }

    /** push: the value goes on top; the C code does not check for room. */
    method Push(value: V)
      requires Valid() && top < StackSize
      modifies this, fields
      ensures Valid() && fields == old(fields) && openUpvalues == old(openUpvalues) && slots == old(slots)
      ensures Stack() == old(Stack()) + [value]
    {
      fields[top] := value;
      top := top + 1;
    }

    /** pop: removes and returns the top value. */
    method Pop() returns (value: V)
      requires Valid() && top > 0
      modifies this
      ensures Valid() && fields == old(fields) && openUpvalues == old(openUpvalues) && slots == old(slots)
      ensures old(Stack()) == Stack() + [value]
    {
      top := top - 1;
      value := fields[top];
    }

    /** peek(distance): the value `distance` places below the top. */
    function Peek(distance: int): (r: V)
      reads this, fields
      requires 0 <= distance < top <= fields.Length
      ensures Stack()[..|Stack()| - distance] == Stack()[..|Stack()| - distance - 1] + [r]
    {
      fields[top - 1 - distance]
    }

    /** The walk of captureUpvalue: the position of the first node not above `local`. */
    static method Locate(list: seq<ObjUpvalue<V>>, ghost s: seq<int>, local: int) returns (i: int)
      requires Tracks(list, s)
      ensures 0 <= i <= |list| && (i == |list| || s[i] <= local)
      ensures forall k :: 0 <= k < i ==> s[k] > local
    {
      i := 0;
      while i < |list| && list[i].location.index > local
        invariant 0 <= i <= |list|
        invariant forall k :: 0 <= k < i ==> s[k] > local
      {
        i := i + 1;
      }
    }

    /** Links the new node `u`, open at `local`, in at position `i`. */
    method LinkAt(i: int, u: ObjUpvalue<V>, local: int)
      requires Tracks(openUpvalues, slots) && 0 <= i <= |openUpvalues|
      requires u.location == Slot(local) && 0 <= local < StackSize
      modifies this
      ensures fields == old(fields) && top == old(top) && u in openUpvalues
      ensures openUpvalues == old(openUpvalues)[..i] + [u] + old(openUpvalues)[i..]
      ensures slots == old(slots)[..i] + [local] + old(slots)[i..]
      ensures Tracks(openUpvalues, slots)
    {
      Linked(openUpvalues, i, u, slots, local);
      openUpvalues := openUpvalues[..i] + [u] + openUpvalues[i..];
      slots := slots[..i] + [local] + slots[i..];
      assert openUpvalues[i] == u;
    }

    /**
     * captureUpvalue: walks the list past the nodes above `local`; returns
     * the node at `local` when there is one, else links a new node in
     * there.
     */
    method CaptureUpvalue(local: int, nil: V) returns (u: ObjUpvalue<V>)
      requires Valid() && OpenValid() && 0 <= local < StackSize
      modifies this
      ensures OpenValid() && fields == old(fields) && top == old(top)
      ensures slots == Insert(old(slots), local)
      ensures u in openUpvalues && u.location == Slot(local)
      ensures local in old(slots) ==> openUpvalues == old(openUpvalues)
      ensures local !in old(slots) ==>
        fresh(u) && exists i :: 0 <= i <= |old(openUpvalues)| && openUpvalues == old(openUpvalues)[..i] + [u] + old(openUpvalues)[i..]
    {
      var list := openUpvalues;
      var i := Locate(list, slots, local);
      InsertDescending(slots, local);
      InsertOnce(slots, local);
      InsertAt(slots, local, i);
      if i < |list| && list[i].location.index == local {
        return list[i];
      }
      Absent(slots, local, i);
      u := new ObjUpvalue(local, nil);
      LinkAt(i, u, local);
    }

    /** One step of closeUpvalues: the head node takes its slot's value and leaves the list. */
    method CloseHead()
      requires Valid() && OpenValid() && openUpvalues != []
      modifies this, openUpvalues[0]
      ensures OpenValid() && fields == old(fields) && top == old(top)
      ensures openUpvalues == old(openUpvalues)[1..] && slots == old(slots)[1..]
      ensures old(openUpvalues)[0].location == Closed && old(openUpvalues)[0].closed == fields[old(slots)[0]]
    {
      var u := openUpvalues[0];
      HeadOnce(openUpvalues, slots);
      u.closed := fields[u.location.index];
      u.location := Closed;
      openUpvalues := openUpvalues[1..];
      slots := slots[1..];
    }

    /**
     * closeUpvalues: closes the head of the list while it points at or
     * above `last`, copying the slot's value into `closed`; the rest of the
     * list stays open and in order.
     */
    method CloseUpvalues(last: int)
      requires Valid() && OpenValid()
      modifies this, openUpvalues
      ensures OpenValid() && fields == old(fields) && top == old(top)
      ensures slots == DropFrom(old(slots), last)
      ensures |openUpvalues| <= |old(openUpvalues)|
      ensures openUpvalues == old(openUpvalues)[|old(openUpvalues)| - |openUpvalues|..]
      ensures forall k :: 0 <= k < |old(openUpvalues)| - |openUpvalues| ==>
        old(openUpvalues)[k].location == Closed && old(openUpvalues)[k].closed == fields[old(slots)[k]]
    {
      ghost var list := openUpvalues;
      ghost var s := slots;
      ghost var n := 0;
      while openUpvalues != [] && openUpvalues[0].location.index >= last
        invariant fields == old(fields) && top == old(top) && s == old(slots) && list == old(openUpvalues)
        invariant 0 <= n <= |list| && openUpvalues == list[n..] && slots == s[n..]
        invariant DropFrom(s, last) == DropFrom(s[n..], last)
        invariant OpenValid()
        invariant forall k :: 0 <= k < n ==> list[k].location == Closed && list[k].closed == fields[s[k]]
        decreases |openUpvalues|
      {
        CloseHead();
        n := n + 1;
      }
    }
  }
}
