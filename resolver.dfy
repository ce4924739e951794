/**
 * The typing of binary and logical expressions in resolver.cpp.  The
 * resolver keeps the static type of every value the function will have
 * pushed on the compiler's stack of locals; a binary expression pops its
 * two operand types, picks the opcode from the first operand's type, wraps
 * an operand in a conversion where int meets float or a string is
 * concatenated, and pushes the result type.  An object type of 0 stands for
 * the NULL object type of `addLocal(ValueType)`.
 */
module Resolvers {
  import opened Value
  import opened Chunk
  import Compilers

  /** The operator tokens visitBinaryExpr switches on. */
  datatype BinaryOp =
    | Plus | Minus | Star | Slash
    | BangEqual | EqualEqual | Greater | GreaterEqual | Less | LessEqual
    | BitOr | OrOr | OrEqual | BitAnd | AndAnd | AndEqual | Xor | XorEqual
    | ShiftRight | ShiftUright | ShiftLeft

  predicate IsArith(op: BinaryOp)
  {
    op == Plus || op == Minus || op == Star || op == Slash
  }

  predicate IsComparison(op: BinaryOp)
  {
    op == BangEqual || op == EqualEqual || op == Greater || op == GreaterEqual || op == Less || op == LessEqual
  }

  const SecondMustBeString := "Second operand must be a string"
  const SecondMustBeNumeric := "Second operand must be numeric"
  const FirstMustBeNumeric := "First operand must be numeric"
  const MustNotBeVoid := "Value must not be void"
  const MustBeBoolean := "Value must be boolean"
  const AlreadyDeclared := "Already a variable with this name in this scope."

  /** A value type as a static type, as addLocal(ValueType) builds it. */
  function Plain(t: ValueType): Type
  {
    Type(t, 0)
  }

  /**
   * The opcode the first switch of visitBinaryExpr picks from the first
   * operand's value type, and whether OP_NOT follows it.
   */
  function Opcode(op: BinaryOp, t: ValueType): (r: (OpCode, bool))
  {
    match op
    case Plus => (if t == Obj then OpAddString else if t == Int then OpAddInt else OpAddFloat, false)
    case Minus => (if t == Int then OpSubtractInt else OpSubtractFloat, false)
    case Star => (if t == Int then OpMultiplyInt else OpMultiplyFloat, false)
    case Slash => (if t == Int then OpDivideInt else OpDivideFloat, false)
    case BangEqual => (if t == Obj then OpEqualString else if t == Int then OpEqualInt else OpEqualFloat, true)
    case EqualEqual => (if t == Obj then OpEqualString else if t == Int then OpEqualInt else OpEqualFloat, false)
    case Greater => (if t == Obj then OpGreaterString else if t == Int then OpGreaterInt else OpGreaterFloat, false)
    case GreaterEqual => (if t == Obj then OpLessString else if t == Int then OpLessInt else OpLessFloat, true)
    case Less => (if t == Obj then OpLessString else if t == Int then OpLessInt else OpLessFloat, false)
    case LessEqual => (if t == Obj then OpGreaterString else if t == Int then OpGreaterInt else OpGreaterFloat, true)
    case BitOr => (OpBitwiseOr, false)
    case OrOr => (OpLogicalOr, false)
    case OrEqual => (if t == Int then OpBitwiseOr else OpLogicalOr, false)
    case BitAnd => (OpBitwiseAnd, false)
    case AndAnd => (OpLogicalAnd, false)
    case AndEqual => (if t == Int then OpBitwiseAnd else OpLogicalAnd, false)
    case Xor => (OpBitwiseXor, false)
    case XorEqual => (OpBitwiseXor, false)
    case ShiftRight => (OpShiftRight, false)
    case ShiftUright => (OpShiftUright, false)
    case ShiftLeft => (OpShiftLeft, false)
  }

  /** The conversion opcode wrapped around an operand, if any. */
  datatype Conversion = Keep | Convert(op: OpCode)

  /** convertToString: the opcode turning a value of type t into a string; void is an error. */
  function ToString(t: ValueType): (Conversion, Maybe<string>)
  {
    match t
    case Int => (Convert(OpIntToString), None)
    case Float => (Convert(OpFloatToString), None)
    case Bool => (Convert(OpBoolToString), None)
    case Void => (Keep, Some(MustNotBeVoid))
    case Obj => (Keep, None)
  }

  /**
   * What visitBinaryExpr decides: the opcode and OP_NOT flag, the
   * conversions of the two operands, the type it pushes (None where it
   * pushes nothing) and the error it reports, if any.
   */
  datatype Resolved = Resolved(opCode: OpCode, notFlag: bool, left: Conversion, right: Conversion,
                               result: Maybe<Type>, error: Maybe<string>)

  /** visitBinaryExpr once both operand types t1 (left) and t2 (right) are known. */
  function ResolveBinary(op: BinaryOp, t1: Type, t2: Type): Resolved
  {
    var (code, notFlag) := Opcode(op, t1.valueType);
    var boolVal := IsComparison(op);
    if op == Plus && t1.valueType == Obj then
      var (conv, error) := ToString(t2.valueType);
      Resolved(code, notFlag, Keep, conv, Some(Plain(Obj)), error)
    else if (op == Plus || IsComparison(op)) && t1.valueType == Obj then
      Resolved(code, notFlag, Keep, Keep, Some(Plain(Bool)), if t2.valueType != Obj then Some(SecondMustBeString) else None)
    else if IsArith(op) || IsComparison(op) then
      var shape := if boolVal then Bool else t1.valueType;
      match t1.valueType
      case Int =>
        if TypeEquals(t1, t2) then Resolved(code, notFlag, Keep, Keep, Some(Plain(shape)), None)
        else if t2.valueType != Float then Resolved(code, notFlag, Keep, Keep, Some(Plain(Void)), Some(SecondMustBeNumeric))
        else Resolved(FloatTwin(code), notFlag, Convert(OpIntToFloat), Keep, Some(Plain(if boolVal then Bool else Float)), None)
      case Float =>
        if TypeEquals(t1, t2) then Resolved(code, notFlag, Keep, Keep, Some(Plain(shape)), None)
        else if t2.valueType != Int then Resolved(code, notFlag, Keep, Keep, Some(Plain(Void)), Some(SecondMustBeNumeric))
        else Resolved(code, notFlag, Keep, Convert(OpIntToFloat), Some(Plain(shape)), None)
      case _ => Resolved(code, notFlag, Keep, Keep, Some(t1), Some(FirstMustBeNumeric))
    else if op == Xor then
      Resolved(code, notFlag, Keep, Keep, Some(Plain(if t1.valueType == Bool then Bool else Float)), None)
    else if op == BitOr || op == BitAnd || op == ShiftRight || op == ShiftUright || op == ShiftLeft then
      Resolved(code, notFlag, Keep, Keep, Some(Plain(Int)), None)
    else if op == OrOr || op == AndAnd then
      Resolved(code, notFlag, Keep, Keep, Some(Plain(Bool)), None)
    else
      Resolved(code, notFlag, Keep, Keep, None, None)
  }

  /** The value type an operand has once its conversion, if any, has run. */
  function Converted(t: ValueType, c: Conversion): ValueType
  {
    match c
    case Keep => t
    case Convert(op) =>
      if op == OpIntToFloat then Float
      else if op == OpIntToString || op == OpFloatToString || op == OpBoolToString then Obj
      else t
  }

  /**
   * `!=`, `>=` and `<=` are compiled as the negation of `==`, `<` and `>`:
   * the same opcode as their complement, and OP_NOT after it.
   */
  lemma NegatedComparisons(t: ValueType)
    ensures Opcode(BangEqual, t) == (Opcode(EqualEqual, t).0, true)
    ensures Opcode(GreaterEqual, t) == (Opcode(Less, t).0, true)
    ensures Opcode(LessEqual, t) == (Opcode(Greater, t).0, true)
    ensures forall op :: op != BangEqual && op != GreaterEqual && op != LessEqual ==> !Opcode(op, t).1
  {
  }

  /**
   * Type soundness of the arithmetic and comparison opcodes: when the
   * resolver reports no error, both operands reach an integer opcode as
   * ints and a float opcode as floats, after their conversions; and the
   * result is bool exactly for a comparison.
   */
  lemma ArithOperandsAgree(op: BinaryOp, t1: Type, t2: Type)
    requires IsArith(op) || IsComparison(op)
    requires t1.valueType == Int || t1.valueType == Float
    ensures var r := ResolveBinary(op, t1, t2);
      r.error == None <==> (t2.valueType == Int || t2.valueType == Float)
    ensures var r := ResolveBinary(op, t1, t2);
      r.error == None ==>
        (IsIntArith(r.opCode) || IsFloatArith(r.opCode)) &&
        (IsIntArith(r.opCode) ==> Converted(t1.valueType, r.left) == Int && Converted(t2.valueType, r.right) == Int) &&
        (IsFloatArith(r.opCode) ==> Converted(t1.valueType, r.left) == Float && Converted(t2.valueType, r.right) == Float) &&
        r.result == Some(Plain(if IsComparison(op) then Bool else if IsIntArith(r.opCode) then Int else Float))
  {
  }

  /** Promotion does not depend on which side the int is on: int op float and float op int agree. */
  lemma PromotionSymmetric(op: BinaryOp, n: nat, m: nat)
    requires IsArith(op) || IsComparison(op)
    ensures var a := ResolveBinary(op, Type(Int, n), Type(Float, m));
      var b := ResolveBinary(op, Type(Float, m), Type(Int, n));
      a.opCode == b.opCode && a.notFlag == b.notFlag && a.result == b.result && a.error == None && b.error == None &&
      a.left == Convert(OpIntToFloat) && a.right == Keep && b.left == Keep && b.right == Convert(OpIntToFloat)
  {
    FloatShiftMapsTwins();
  }

  /**
   * A string on the left: `+` converts the right operand to a string
   * (void is an error) and gives a string; a comparison needs a string on
   * the right and gives a bool.
   */
  lemma StringOperands(op: BinaryOp, t1: Type, t2: Type)
    requires t1.valueType == Obj
    ensures op == Plus ==>
      var r := ResolveBinary(op, t1, t2);
      r.opCode == OpAddString && r.result == Some(Plain(Obj)) &&
      (r.error == None <==> t2.valueType != Void) &&
      (r.error == None ==> Converted(t2.valueType, r.right) == Obj)
    ensures IsComparison(op) ==>
      var r := ResolveBinary(op, t1, t2);
      r.result == Some(Plain(Bool)) && (r.error == None <==> t2.valueType == Obj)
  {
  }

  /** A first operand neither numeric nor a string (for `+` and comparisons) is an error, and its type is what is pushed. */
  lemma NonNumericFirst(op: BinaryOp, t1: Type, t2: Type)
    requires IsArith(op) || IsComparison(op)
    requires t1.valueType == Void || t1.valueType == Bool || (t1.valueType == Obj && !(op == Plus || IsComparison(op)))
    ensures ResolveBinary(op, t1, t2).error == Some(FirstMustBeNumeric)
    ensures ResolveBinary(op, t1, t2).result == Some(t1)
  {
  }

  /** The bitwise, shift and logical operators check nothing: ints for the former, bools for `||` and `&&`. */
  lemma UncheckedOperators(op: BinaryOp, t1: Type, t2: Type)
    ensures op in {BitOr, BitAnd, ShiftRight, ShiftUright, ShiftLeft} ==>
      ResolveBinary(op, t1, t2).result == Some(Plain(Int)) && ResolveBinary(op, t1, t2).error == None
    ensures op in {OrOr, AndAnd} ==>
      ResolveBinary(op, t1, t2).result == Some(Plain(Bool)) && ResolveBinary(op, t1, t2).error == None
  {
  }

  /** visitLogicalExpr: both operands must be bool; the result is bool either way. */
  function ResolveLogical(t1: Type, t2: Type): (r: (Type, Maybe<string>))
    ensures r.0 == Plain(Bool)
    ensures r.1 == None <==> t1.valueType == Bool && t2.valueType == Bool
  {
    (Plain(Bool), if t1.valueType != Bool || t2.valueType != Bool then Some(MustBeBoolean) else None)
  }

  /**
   * visitBinaryExpr on the compiler's stack, once the operands have been
   * resolved: pops the right then the left operand type and pushes the
   * result type, as ResolveBinary decides.
   */
  method VisitBinary(c: Compilers.Compiler, op: BinaryOp) returns (r: Resolved)
    requires c.Valid() && |c.locals| >= 2
    modifies c
    ensures c.Valid() && c.Repr == old(c.Repr) && c.scopeDepth == old(c.scopeDepth)
    ensures r == ResolveBinary(op, old(c.locals)[|old(c.locals)| - 2].varType, old(c.locals)[|old(c.locals)| - 1].varType)
    ensures c.locals == old(c.locals)[..|old(c.locals)| - 2] +
      (if r.result.Some? then [Compilers.Local(r.result.value, "", c.scopeDepth, false)] else [])
  {
    var t2 := c.RemoveLocal();
    var t1 := c.RemoveLocal();
    r := ResolveBinary(op, t1, t2);
    if r.result.Some? {
      var _ := c.AddLocal(r.result.value);
    }
  }

  /** visitLogicalExpr on the compiler's stack: two operand types popped, bool pushed. */
  method VisitLogical(c: Compilers.Compiler) returns (error: Maybe<string>)
    requires c.Valid() && |c.locals| >= 2
    modifies c
    ensures c.Valid() && c.Repr == old(c.Repr) && c.scopeDepth == old(c.scopeDepth)
    ensures error == ResolveLogical(old(c.locals)[|old(c.locals)| - 2].varType, old(c.locals)[|old(c.locals)| - 1].varType).1
    ensures c.locals == old(c.locals)[..|old(c.locals)| - 2] + [Compilers.Local(Plain(Bool), "", c.scopeDepth, false)]
  {
    var t2 := c.RemoveLocal();
    var t1 := c.RemoveLocal();
    var (t, e) := ResolveLogical(t1, t2);
    error := e;
    var _ := c.AddLocal(t);
  }

  /**
   * Where checkDeclaration's backward scan stops: the scan covers the
   * locals from the returned index up to `n`, and stops below a local
   * declared in an outer block (depth -1 marks a local the scan passes
   * over).
   */
  function ScopeStart(locals: seq<Compilers.Local>, scopeDepth: int, n: nat): (k: nat)
    requires n <= |locals|
    ensures k <= n
    ensures forall i :: k <= i < n ==> locals[i].depth == -1 || locals[i].depth >= scopeDepth
    ensures k > 0 ==> locals[k - 1].depth != -1 && locals[k - 1].depth < scopeDepth
  {
    if n == 0 then 0
    else if locals[n - 1].depth != -1 && locals[n - 1].depth < scopeDepth then n
    else ScopeStart(locals, scopeDepth, n - 1)
  }

  /**
   * checkDeclaration: scans the locals of the current block from the top
   * and reports the error once for every one already named `name`.
   */
  method CheckDeclaration(c: Compilers.Compiler, name: string) returns (errors: seq<string>)
    ensures forall m :: m in errors ==> m == AlreadyDeclared
    ensures errors != [] <==>
      exists k :: ScopeStart(c.locals, c.scopeDepth, |c.locals|) <= k < |c.locals| &&
        Compilers.IdentifiersEqual(name, c.locals[k].name)
  {
    errors := [];
    var i := |c.locals| - 1;
    ghost var start := ScopeStart(c.locals, c.scopeDepth, |c.locals|);
    while i >= 0
      invariant -1 <= i < |c.locals|
      invariant start == ScopeStart(c.locals, c.scopeDepth, i + 1)
      invariant forall m :: m in errors ==> m == AlreadyDeclared
      invariant errors != [] <==> exists k :: i < k < |c.locals| && Compilers.IdentifiersEqual(name, c.locals[k].name)
    {
      var local := c.locals[i];
      if local.depth != -1 && local.depth < c.scopeDepth {
        break;
      }
      if Compilers.IdentifiersEqual(name, local.name) {
        errors := errors + [AlreadyDeclared];
      }
      i := i - 1;
    }
  }
}
