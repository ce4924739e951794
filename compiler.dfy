/**
 * The per-function compiler state of compiler.cpp: the stack of locals the
 * resolver keeps in step with the values the function's code will push,
 * the block depth, and the chain of enclosing compilers through which a
 * free variable is captured as an upvalue.
 */
module Compilers {
  import opened Value
  import Callables

  /** UINT8_COUNT, the size of the `locals` array. */
  const LocalLimit := 256

  const TooManyLocals := "Too many local variables in function."

  /**
   * A local: its static type, its name (empty for a temporary the resolver
   * pushes), the block depth it was declared at, and whether a closure
   * captures it.
   */
  datatype Local = Local(varType: Type, name: string, depth: int, isCaptured: bool)

  /** identifiersEqual (parser.cpp): the same text, and never an empty name. */
  predicate IdentifiersEqual(a: string, b: string)
  {
    |a| != 0 && a == b
  }

  /** The highest slot below `n` whose local is named `name`, or -1. */
  function LastMatch(locals: seq<Local>, name: string, n: nat): (r: int)
    requires n <= |locals|
    ensures -1 <= r < n
    ensures r != -1 ==> IdentifiersEqual(name, locals[r].name)
    ensures forall k :: r < k < n ==> !IdentifiersEqual(name, locals[k].name)
  {
    if n == 0 then -1
    else if IdentifiersEqual(name, locals[n - 1].name) then n - 1
    else LastMatch(locals, name, n - 1)
  }

  /** The local a name resolves to: the innermost declaration of it. */
  function Resolve(locals: seq<Local>, name: string): int
  {
    LastMatch(locals, name, |locals|)
  }

  /** Only the first `n` slots matter to LastMatch. */
  lemma {:induction false} LastMatchPrefix(locals: seq<Local>, more: seq<Local>, name: string, n: nat)
    requires n <= |locals|
    ensures LastMatch(locals + more, name, n) == LastMatch(locals, name, n)
  {
    if n > 0 {
      assert (locals + more)[n - 1] == locals[n - 1];
      LastMatchPrefix(locals, more, name, n - 1);
    }
  }

  /**
   * A local declared with a name hides every earlier one of that name; a
   * temporary, pushed with the empty name, changes nothing a name
   * resolves to.
   */
  lemma ResolveAfterPush(locals: seq<Local>, l: Local, name: string)
    ensures l.name == name && name != "" ==> Resolve(locals + [l], name) == |locals|
    ensures l.name == "" ==> Resolve(locals + [l], name) == Resolve(locals, name)
  {
    LastMatchPrefix(locals, [l], name, |locals|);
  }

  /** The empty name resolves to nothing. */
  lemma {:induction false} EmptyNeverResolves(locals: seq<Local>, n: nat)
    requires n <= |locals|
    ensures LastMatch(locals, "", n) == -1
  {
    if n > 0 {
      EmptyNeverResolves(locals, n - 1);
    }
  }

  /** Depths never decrease from the bottom of the stack and none exceeds the current block depth. */
  ghost predicate Layered(locals: seq<Local>, scopeDepth: int)
  {
    (forall i, j :: 0 <= i < j < |locals| ==> locals[i].depth <= locals[j].depth) &&
    (forall k :: 0 <= k < |locals| ==> locals[k].depth <= scopeDepth)
  }

  /** The messages a call reported, in order. */
  function Reported(e: Maybe<string>): seq<string>
  {
    match e
    case None => []
    case Some(m) => [m]
  }

  class Compiler {
    var prefix: string
    var enclosing: Compiler?
    var callable: Callables.Callable
    /** The name of the function compiled (function->name), given after construction; None for the script. */
    var functionName: Maybe<string>
    var locals: seq<Local>
    var scopeDepth: int
    /** This compiler, its function, and everything its enclosing compilers hold. */
    ghost var Repr: set<object>

    ghost predicate Valid()
      reads this, Repr
      decreases Repr
    {
      this in Repr && callable in Repr && callable.Valid() &&
      |locals| <= LocalLimit && Layered(locals, scopeDepth) &&
      (enclosing != null ==>
        enclosing in Repr && enclosing.Repr <= Repr &&
        this !in enclosing.Repr && callable !in enclosing.Repr &&
        enclosing.Valid())
    }

    /**
     * Compiler(parser, enclosing): a fresh function whose slot 0 holds the
     * function object itself (`functionObj`), at block depth 0.  The name
     * prefix of generated symbols is "qni" at top level, else the
     * enclosing prefix followed by "_" and the enclosing function's name
     * when it has one.
     */
    constructor (enclosing: Compiler?, functionObj: nat)
      requires enclosing != null ==> enclosing.Valid()
      ensures Valid() && this.enclosing == enclosing && functionName == None
      ensures fresh(Repr - (if enclosing != null then enclosing.Repr else {}))
      ensures enclosing == null ==> prefix == "qni"
      ensures enclosing != null ==> prefix == enclosing.prefix + Suffix(enclosing.functionName)
      ensures scopeDepth == 0 && locals == [Local(Type(Obj, functionObj), "", 0, false)]
      ensures callable.upvalues == []
    {
      prefix := if enclosing != null then enclosing.prefix + Suffix(enclosing.functionName) else "qni";
      scopeDepth := 0;
      var f := new Callables.Callable();
      callable := f;
      functionName := None;
      this.enclosing := enclosing;
      locals := [Local(Type(Obj, functionObj), "", 0, false)];
      Repr := {this, f} + (if enclosing != null then enclosing.Repr else {});
    }

    /** What an enclosing function's name adds to the prefix. */
    static function Suffix(name: Maybe<string>): string
    {
      match name
      case None => ""
      case Some(n) => "_" + n
    }

    /** beginScope: one block deeper. */
    method BeginScope()
      requires Valid()
      modifies this
      ensures Valid() && Repr == old(Repr) && scopeDepth == old(scopeDepth) + 1
      ensures locals == old(locals) && enclosing == old(enclosing) && callable == old(callable)
    {
      scopeDepth := scopeDepth + 1;
    }

    /**
     * endScope: one block shallower; pops the locals declared in the block
     * left, that is every local now deeper than the block depth, and
     * returns how many.
     */
    method EndScope() returns (popLevels: int)
      requires Valid()
      modifies this
      ensures Valid() && Repr == old(Repr) && enclosing == old(enclosing) && callable == old(callable)
      ensures scopeDepth == old(scopeDepth) - 1
      ensures 0 <= popLevels <= |old(locals)| && locals == old(locals)[..|old(locals)| - popLevels]
      ensures forall k :: |locals| <= k < |old(locals)| ==> old(locals)[k].depth > scopeDepth
      ensures forall k :: 0 <= k < |locals| ==> locals[k].depth <= scopeDepth
    {
      scopeDepth := scopeDepth - 1;
      var n := |locals|;
      while n > 0 && locals[n - 1].depth > scopeDepth
        invariant 0 <= n <= |locals|
        invariant forall k :: n <= k < |locals| ==> locals[k].depth > scopeDepth
      {
        n := n - 1;
      }
      popLevels := |locals| - n;
      locals := locals[..n];
    }

    /**
     * addLocal(type): a full stack reports the error and adds nothing (the
     * C code returns NULL); otherwise a new unnamed, uncaptured local at
     * the current depth goes on top.
     */
    method AddLocal(varType: Type) returns (error: Maybe<string>)
      requires Valid()
      modifies this
      ensures Valid() && Repr == old(Repr) && scopeDepth == old(scopeDepth)
      ensures enclosing == old(enclosing) && callable == old(callable)
      ensures |old(locals)| == LocalLimit ==> locals == old(locals) && error == Some(TooManyLocals)
      ensures |old(locals)| < LocalLimit ==>
        locals == old(locals) + [Local(varType, "", scopeDepth, false)] && error == None
    {
      if |locals| == LocalLimit {
        return Some(TooManyLocals);
      }
      locals := locals + [Local(varType, "", scopeDepth, false)];
      return None;
    }

    /** removeLocal: pops the top local and returns its type. */
    method RemoveLocal() returns (varType: Type)
      requires Valid() && locals != []
      modifies this
      ensures Valid() && Repr == old(Repr) && scopeDepth == old(scopeDepth)
      ensures enclosing == old(enclosing) && callable == old(callable)
      ensures old(locals) == locals + [old(locals)[|old(locals)| - 1]]
      ensures varType == old(locals)[|old(locals)| - 1].varType
    {
      varType := locals[|locals| - 1].varType;
      locals := locals[..|locals| - 1];
    }

    /** peekLocal(index): the local `index` places below the top. */
    function PeekLocal(index: int): (l: Local)
      reads this
      requires 0 <= index < |locals|
      ensures locals[..|locals| - index] == locals[..|locals| - index - 1] + [l]
    {
      locals[|locals| - 1 - index]
    }

    /** setLocalName: names the top local; nothing else changes. */
    method SetLocalName(name: string)
      requires Valid() && locals != []
      modifies this
      ensures Valid() && Repr == old(Repr) && scopeDepth == old(scopeDepth)
      ensures enclosing == old(enclosing) && callable == old(callable)
      ensures |locals| == |old(locals)| && locals[..|locals| - 1] == old(locals)[..|locals| - 1]
      ensures locals[|locals| - 1] == old(locals)[|locals| - 1].(name := name)
    {
      locals := locals[|locals| - 1 := locals[|locals| - 1].(name := name)];
    }

    /** setLocalObjType: the top local's type now points at `objType`; nothing else changes. */
    method SetLocalObjType(objType: nat)
      requires Valid() && locals != []
      modifies this
      ensures Valid() && Repr == old(Repr) && scopeDepth == old(scopeDepth)
      ensures enclosing == old(enclosing) && callable == old(callable)
      ensures |locals| == |old(locals)| && locals[..|locals| - 1] == old(locals)[..|locals| - 1]
      ensures var l := old(locals)[|locals| - 1];
        locals[|locals| - 1] == l.(varType := l.varType.(objType := objType))
    {
      var l := locals[|locals| - 1];
      locals := locals[|locals| - 1 := l.(varType := l.varType.(objType := objType))];
    }

    /** resolveLocal: scans the stack from the top for the name. */
    method ResolveLocal(name: string) returns (r: int)
      ensures r == Resolve(locals, name)
    {
      var i := |locals| - 1;
      while i >= 0
        invariant -1 <= i < |locals|
        invariant Resolve(locals, name) == LastMatch(locals, name, i + 1)
      {
        if IdentifiersEqual(name, locals[i].name) {
          return i;
        }
        i := i - 1;
      }
      return -1;
    }

    /** Marks local `local` captured by a closure (resolveUpvalue does this to the enclosing compiler). */
    method MarkCaptured(local: int)
      requires Valid() && 0 <= local < |locals|
      modifies this
      ensures Valid() && Repr == old(Repr) && scopeDepth == old(scopeDepth)
      ensures enclosing == old(enclosing) && callable == old(callable)
      ensures locals == old(locals)[local := old(locals)[local].(isCaptured := true)]
    {
      locals := locals[local := locals[local].(isCaptured := true)];
    }

    /** Some enclosing function, at any distance out, has a local named `name`. */
    ghost predicate Visible(name: string)
      reads this, Repr
      requires Valid()
      decreases Repr
    {
      enclosing != null &&
      (Resolve(enclosing.locals, name) != -1 || enclosing.Visible(name))
    }

    /**
     * resolveUpvalue: a local of the enclosing function is marked captured
     * and added as an upvalue of this function with isLocal set; failing
     * that, the name is resolved as an upvalue of the enclosing function,
     * recursively, and that upvalue added with isLocal clear.  The slot
     * returned is addUpvalue's, -1 when the name is nowhere in scope.
     * `errors` lists the messages reported on the way out, `error` the one
     * of this function's addUpvalue, `outer` the slot this function's new
     * upvalue refers to.
     */
    method ResolveUpvalue(name: string) returns (r: int, errors: seq<string>, ghost outer: int, ghost error: Maybe<string>)
      requires Valid()
      modifies Repr
      decreases Repr, 1
      ensures Valid() && Repr == old(Repr) && unchanged(this)
      ensures r == -1 <==> !old(Visible(name))
      ensures r != -1 ==> r < |callable.upvalues|
      ensures r == -1 ==> errors == [] && unchanged(Repr)
      ensures |Reported(error)| <= |errors| && errors[|errors| - |Reported(error)|..] == Reported(error)
      ensures enclosing != null && Resolve(old(enclosing.locals), name) != -1 ==>
        var l := Resolve(old(enclosing.locals), name);
        outer == l && errors == Reported(error) &&
        enclosing.locals == old(enclosing.locals)[l := old(enclosing.locals)[l].(isCaptured := true)] &&
        Callables.Added(callable.upvalues, r, error) ==
          Callables.AfterAdd(old(callable.upvalues), l, true, old(enclosing.locals)[l].varType)
      ensures enclosing != null && Resolve(old(enclosing.locals), name) == -1 && r != -1 ==>
        enclosing.locals == old(enclosing.locals) &&
        0 <= outer < |enclosing.callable.upvalues| &&
        Callables.Added(callable.upvalues, r, error) ==
          Callables.AfterAdd(old(callable.upvalues), outer, false, enclosing.callable.upvalues[outer].varType)
    {
      if enclosing == null {
        return -1, [], -1, None;
      }
      var local := enclosing.ResolveLocal(name);
      if local != -1 {
        var slot, e := CaptureLocal(local);
        return slot, Reported(e), local, e;
      }
      r, errors, outer, error := CaptureOuter(name);
    }

    /** resolveUpvalue when the enclosing function has the local: mark it captured and add it with isLocal set. */
    method CaptureLocal(local: int) returns (slot: int, error: Maybe<string>)
      requires Valid() && enclosing != null && 0 <= local < |enclosing.locals|
      modifies enclosing, callable
      ensures Valid() && Repr == old(Repr) && unchanged(this) && 0 <= slot < |callable.upvalues|
      ensures enclosing.locals == old(enclosing.locals)[local := old(enclosing.locals)[local].(isCaptured := true)]
      ensures Callables.Added(callable.upvalues, slot, error) ==
        Callables.AfterAdd(old(callable.upvalues), local, true, old(enclosing.locals)[local].varType)
    {
      enclosing.MarkCaptured(local);
      slot, error := AddUpvalue(local, enclosing.locals[local].varType, true);
    }

    /** resolveUpvalue when the enclosing function lacks the local: resolve it there as an upvalue and add that with isLocal clear. */
    method CaptureOuter(name: string) returns (r: int, errors: seq<string>, ghost outer: int, ghost error: Maybe<string>)
      requires Valid() && enclosing != null && Resolve(enclosing.locals, name) == -1
      modifies Repr
      decreases Repr, 0
      ensures Valid() && Repr == old(Repr) && unchanged(this)
      ensures r == -1 <==> !old(enclosing.Visible(name))
      ensures r != -1 ==> r < |callable.upvalues|
      ensures r == -1 ==> errors == [] && unchanged(Repr)
      ensures |Reported(error)| <= |errors| && errors[|errors| - |Reported(error)|..] == Reported(error)
      ensures enclosing.locals == old(enclosing.locals)
      ensures r != -1 ==>
        0 <= outer < |enclosing.callable.upvalues| &&
        Callables.Added(callable.upvalues, r, error) ==
          Callables.AfterAdd(old(callable.upvalues), outer, false, enclosing.callable.upvalues[outer].varType)
    {
      var upvalue, errs, _, _ := enclosing.ResolveUpvalue(name);
      if upvalue == -1 {
        return -1, [], -1, None;
      }
      var slot, e := AddUpvalue(upvalue, enclosing.callable.upvalues[upvalue].varType, false);
      return slot, errs + Reported(e), upvalue, e;
    }

    /** addUpvalue: the function's addUpvalue, its message reported to the parser. */
    method AddUpvalue(index: int, varType: Type, isLocal: bool) returns (slot: int, error: Maybe<string>)
      requires Valid() && 0 <= index < 256
      modifies callable
      ensures Valid() && Repr == old(Repr) && 0 <= slot < |callable.upvalues|
      ensures Callables.Added(callable.upvalues, slot, error) == Callables.AfterAdd(old(callable.upvalues), index, isLocal, varType)
    {
      slot, error := callable.AddUpvalue(index, isLocal, varType);
    }
  }
}
