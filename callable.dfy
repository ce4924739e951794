/**
 * ObjCallable's upvalue table (object.cpp): the variables a function
 * captures from enclosing functions, each named by a slot `index` (a
 * `uint8_t`) and whether that slot is a local of the enclosing function or
 * one of its upvalues.  The table holds at most UINT8_COUNT entries.
 */
module Callables {
  import opened Value

  /** UINT8_COUNT, the size of the `upvalues` array. */
  const UpvalueLimit := 256

  const TooManyClosureVariables := "Too many closure variables in function."

  /** struct Upvalue. */
  datatype Upvalue = Upvalue(index: int, isLocal: bool, varType: Type)

  /** What addUpvalue leaves: the table, the slot it returns and the error it reports, if any. */
  datatype Added = Added(upvalues: seq<Upvalue>, slot: int, error: Maybe<string>)

  predicate Names(u: Upvalue, index: int, isLocal: bool)
  {
    u.index == index && u.isLocal == isLocal
  }

  /** The lowest slot from `from` on that names (index, isLocal), or -1. */
  function FirstMatch(ups: seq<Upvalue>, index: int, isLocal: bool, from: nat): (r: int)
    requires from <= |ups|
    decreases |ups| - from
    ensures r == -1 || (from <= r < |ups| && Names(ups[r], index, isLocal))
    ensures r == -1 ==> forall k :: from <= k < |ups| ==> !Names(ups[k], index, isLocal)
    ensures r != -1 ==> forall k :: from <= k < r ==> !Names(ups[k], index, isLocal)
  {
    if from == |ups| then -1
    else if Names(ups[from], index, isLocal) then from
    else FirstMatch(ups, index, isLocal, from + 1)
  }

  /**
   * addUpvalue on the table `ups`: the slot of an entry already naming
   * (index, isLocal); else, on a full table, slot 0 and the error; else the
   * new entry's slot at the end.
   */
  function AfterAdd(ups: seq<Upvalue>, index: int, isLocal: bool, varType: Type): Added
  {
    var i := FirstMatch(ups, index, isLocal, 0);
    if i != -1 then Added(ups, i, None)
    else if |ups| == UpvalueLimit then Added(ups, 0, Some(TooManyClosureVariables))
    else Added(ups + [Upvalue(index, isLocal, varType)], |ups|, None)
  }

  /** No two entries of the table name the same variable. */
  ghost predicate Distinct(ups: seq<Upvalue>)
  {
    forall i, j :: 0 <= i < j < |ups| ==> !Names(ups[j], ups[i].index, ups[i].isLocal)
  }

  /**
   * The slot addUpvalue returns names (index, isLocal) unless it reported
   * the error; the table only grows, by one entry, within its limit, and
   * keeps its entries distinct.
   */
  lemma AddResult(ups: seq<Upvalue>, index: int, isLocal: bool, varType: Type)
    requires |ups| <= UpvalueLimit && Distinct(ups)
    ensures var a := AfterAdd(ups, index, isLocal, varType);
      |a.upvalues| <= UpvalueLimit && Distinct(a.upvalues) &&
      ups <= a.upvalues && |a.upvalues| <= |ups| + 1 &&
      (a.error == None <==> 0 <= a.slot < |a.upvalues| && Names(a.upvalues[a.slot], index, isLocal)) &&
      (a.error != None ==> a.slot == 0 && a.upvalues == ups && |ups| == UpvalueLimit)
  {
    var a := AfterAdd(ups, index, isLocal, varType);
    if FirstMatch(ups, index, isLocal, 0) == -1 && |ups| == UpvalueLimit {
      // Every entry names something else, slot 0 included.
      assert !Names(ups[0], index, isLocal);
    }
    if a.upvalues != ups {
      forall i, j | 0 <= i < j < |a.upvalues|
        ensures !Names(a.upvalues[j], a.upvalues[i].index, a.upvalues[i].isLocal)
      {
        if j == |ups| {
          assert !Names(ups[i], index, isLocal);
        }
      }
    }
  }

  /** Adding the same variable again finds the slot the first add gave and leaves the table as it was. */
  lemma AddTwice(ups: seq<Upvalue>, index: int, isLocal: bool, varType: Type, varType': Type)
    requires AfterAdd(ups, index, isLocal, varType).error == None
    ensures var a := AfterAdd(ups, index, isLocal, varType);
      AfterAdd(a.upvalues, index, isLocal, varType') == a
  {
    var a := AfterAdd(ups, index, isLocal, varType);
    if a.upvalues != ups {
      assert Names(a.upvalues[|ups|], index, isLocal);
    }
  }

  /** ObjCallable, reduced to its upvalue table (`upvalueCount` is its length). */
  class Callable {
    var upvalues: seq<Upvalue>

    ghost predicate Valid()
      reads this
    {
      |upvalues| <= UpvalueLimit && Distinct(upvalues)
    }

    constructor ()
      ensures Valid() && upvalues == []
    {
      upvalues := [];
    }

    /**
     * addUpvalue: searches the table from slot 0 for (index, isLocal); the
     * error is reported to the parser, which the returned message stands for.
     */
    method AddUpvalue(index: int, isLocal: bool, varType: Type) returns (slot: int, error: Maybe<string>)
      requires Valid() && 0 <= index < 256
      modifies this
      ensures Valid() && 0 <= slot < |upvalues|
      ensures Added(upvalues, slot, error) == AfterAdd(old(upvalues), index, isLocal, varType)
    {
      AddResult(upvalues, index, isLocal, varType);
      var i := 0;
      while i < |upvalues|
        invariant 0 <= i <= |upvalues|
        invariant FirstMatch(upvalues, index, isLocal, 0) == FirstMatch(upvalues, index, isLocal, i)
      {
        if upvalues[i].index == index && upvalues[i].isLocal == isLocal {
          return i, None;
        }
        i := i + 1;
      }
      if |upvalues| == UpvalueLimit {
        return 0, Some(TooManyClosureVariables);
      }
      upvalues := upvalues + [Upvalue(index, isLocal, varType)];
      return |upvalues| - 1, None;
    }
  }
}
