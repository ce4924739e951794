/**
 * Bytecode emission (codegen.cpp) and the interpreter's decoding of jump
 * operands (object.cpp).  A jump carries a signed 16-bit big-endian offset
 * that the interpreter adds to the instruction pointer once it has read the
 * operand; emitJump leaves a placeholder that patchJump overwrites once the
 * target is known, and emitLoop encodes a backward jump.
 *
 * The chunk being written is modelled by its bytes and its constant table;
 * the line written with every byte is always 1 and is left out.  Errors go
 * through the parser's errorAt, which reports only while not in panic mode.
 */
module CodeGen {
  import opened Chunk

  const Int16Max: int := 32767
  const Uint8Max: int := 255

  /** The messages the code generator passes to parser.error. */
  datatype Message = LoopTooLarge | JumpTooLarge | TooManyConstants

  function Text(m: Message): string
  {
    match m
    case LoopTooLarge => "Loop body too large."
    case JumpTooLarge => "Too much code to jump over."
    case TooManyConstants => "Too many constants in one chunk."
  }

  /** q is the floor of n / 256. */
  predicate IsQuotient256(n: int, q: int)
  {
    256 * q <= n < 256 * q + 256
  }

  lemma Quotient256(n: int)
    ensures IsQuotient256(n, n / 256)
    ensures forall q :: IsQuotient256(n, q) ==> q == n / 256
  {
  }

  /**
   * (n >> 8) & 0xff on a C int: the shift is arithmetic, so it is the floor
   * of n / 256, taken mod 256 (stated through the quotient's defining
   * inequalities, which keeps division out of the code that mentions it).
   */
  ghost function High(n: int): byte
  {
    Quotient256(n);
    var q :| IsQuotient256(n, q);
    Quotient256(q);
    var m :| IsQuotient256(q, m);
    q - 256 * m
  }

  /** n & 0xff. */
  ghost function Low(n: int): byte
  {
    Quotient256(n);
    var q :| IsQuotient256(n, q);
    n - 256 * q
  }

  /** The two operand bytes as a C compiler computes them. */
  lemma HighLowShifts(n: int)
    ensures High(n) == (n / 256) % 256 && Low(n) == n % 256
  {
    Quotient256(n);
    Quotient256(n / 256);
  }

  /** READ_SHORT read as the int16_t the jump cases store it in. */
  function ReadShort(hi: byte, lo: byte): (r: int)
    ensures -32768 <= r <= Int16Max
  {
    var u := hi as int * 256 + lo as int;
    if u > Int16Max then u - 65536 else u
  }

  /** Where a jump whose opcode is at `pc` sends the instruction pointer: past its operand, plus the operand. */
  function Target(code: seq<byte>, pc: nat): int
    requires pc + 2 < |code|
  {
    pc + 3 + ReadShort(code[pc + 1], code[pc + 2])
  }

  /** Encoding a 16-bit signed value big-endian and reading it back gives the value. */
  lemma ShortRoundTrip(n: int)
    requires -32768 <= n <= Int16Max
    ensures ReadShort(High(n), Low(n)) == n
  {
    Quotient256(n);
    Quotient256(n / 256);
  }

  /** What emitting an expression appends: code, constants, and the messages passed to parser.error, in order. */
  datatype Emitted = Emitted(bytes: seq<byte>, consts: seq<Constant>, errors: seq<Message>)

  function Then(a: Emitted, b: Emitted): Emitted
  {
    Emitted(a.bytes + b.bytes, a.consts + b.consts, a.errors + b.errors)
  }

  function Bytes(bs: seq<byte>): Emitted
  {
    Emitted(bs, [], [])
  }

  function ErrorIf(c: bool, message: Message): seq<Message>
  {
    if c then [message] else []
  }

  /** A constant as written to the constant table. */
  datatype Constant = IntConst(i: int) | FloatConst(f: real) | BoolConst(b: bool) | StringConst(s: string)

  datatype Option<T> = None | Some(value: T)

  /**
   * The expressions whose emission is modelled.  While is a BinaryExpr whose
   * operator is `while`; And and Or are the two LogicalExprs.
   */
  datatype Expr =
    | Literal(value: Constant)
    | Variable(index: byte, upvalue: bool)
    | Binary(left: Expr, operand: Option<Expr>, opCode: OpCode, notFlag: bool)
    | While(cond: Expr, body: Expr)
    | And(left: Expr, right: Expr)
    | Or(left: Expr, right: Expr)
    | Ternary(left: Expr, middle: Expr, alt: Option<Expr>)
    | Grouping(exprs: seq<Expr>, popLevels: nat, paren: bool)

  /** emitConstant with `k` constants already in the table: OP_CONSTANT and the index, 0 when it does not fit a byte. */
  function ConstantCode(v: Constant, k: nat): Emitted
  {
    Emitted([OpByte(OpConstant), if k > Uint8Max then 0 else k as byte], [v], ErrorIf(k > Uint8Max, TooManyConstants))
  }

  /** A jump instruction with its operand. */
  ghost function JumpCode(op: OpCode, offset: int): Emitted
  {
    Bytes([OpByte(op), High(offset), Low(offset)])
  }

  /** The jump emitJump writes before its target is known: the operand bytes are both 0xff. */
  function Placeholder(op: OpCode): Emitted
  {
    Bytes([OpByte(op), 0xff, 0xff])
  }

  function Pops(n: nat): seq<byte>
  {
    seq(n, _ => OpByte(OpPop))
  }

  function Errors(e: seq<Message>): Emitted
  {
    Emitted([], [], e)
  }

  /** visitBinaryExpr for an operator other than `while`: left, right, the opcode, and OP_NOT when notFlag is set. */
  ghost function BinaryCode(a: Emitted, b: Emitted, op: OpCode, notFlag: bool): Emitted
  {
    Then(Then(a, b), Bytes([OpByte(op)] + (if notFlag then [OpByte(OpNot)] else [])))
  }

  /** visitBinaryExpr for `while`: condition, exit jump, body, and the jump back to the condition. */
  ghost function WhileCode(a: Emitted, b: Emitted): Emitted
  {
    var back := |a.bytes| + |b.bytes| + 6;
    var exit := |b.bytes| + 3;
    Then(Then(Then(a, JumpCode(OpPopJumpIfFalse, exit)), b),
         Emitted(JumpCode(OpJump, -back).bytes, [], ErrorIf(back > Int16Max, LoopTooLarge) + ErrorIf(exit > Int16Max, JumpTooLarge)))
  }

  /** visitLogicalExpr for `&&`: left, a jump past the right operand when false, a pop, the right operand. */
  ghost function AndCode(a: Emitted, b: Emitted): Emitted
  {
    Then(Then(Then(Then(a, JumpCode(OpJumpIfFalse, |b.bytes| + 1)), Bytes([OpByte(OpPop)])), b),
         Errors(ErrorIf(|b.bytes| + 1 > Int16Max, JumpTooLarge)))
  }

  /** visitLogicalExpr for `||`: left, a jump over the next jump when false, a jump past the right operand, a pop, the right operand. */
  ghost function OrCode(a: Emitted, b: Emitted): Emitted
  {
    Then(Then(Then(Then(Then(a, JumpCode(OpJumpIfFalse, 3)), JumpCode(OpJump, |b.bytes| + 1)), Bytes([OpByte(OpPop)])), b),
         Errors(ErrorIf(|b.bytes| + 1 > Int16Max, JumpTooLarge)))
  }

  /** visitTernaryExpr without an else part: condition, a jump past the middle when false, the middle. */
  ghost function TernaryCode(a: Emitted, b: Emitted): Emitted
  {
    Then(Then(Then(a, JumpCode(OpPopJumpIfFalse, |b.bytes|)), b), Errors(ErrorIf(|b.bytes| > Int16Max, JumpTooLarge)))
  }

  /** visitTernaryExpr with an else part: condition, a jump to the else part, the middle, a jump past the else part, the else part. */
  ghost function TernaryElseCode(a: Emitted, b: Emitted, c: Emitted): Emitted
  {
    Then(Then(Then(Then(Then(a, JumpCode(OpPopJumpIfFalse, |b.bytes| + 3)), b),
                   Emitted(JumpCode(OpJump, |c.bytes|).bytes, [], ErrorIf(|b.bytes| + 3 > Int16Max, JumpTooLarge))), c),
         Errors(ErrorIf(|c.bytes| > Int16Max, JumpTooLarge)))
  }

  /** visitGroupingExpr after its expressions: popLevels pops and, for a parenthesised group, a pop and a read of local popLevels. */
  function GroupTail(n: nat, paren: bool): seq<byte>
  {
    Pops(n) + (if paren then [OpByte(OpPop), OpByte(OpGetLocal), n % 256] else [])
  }

  /**
   * The code emitted for `e` when the constant table already holds `k`
   * entries.  Each compound case is a function of its own, so that one
   * unfolding of Gen exposes only the case at hand.
   */
  ghost function Gen(e: Expr, k: nat): Emitted
    decreases e, 1
  {
    match e
    case Literal(v) => ConstantCode(v, k)
    case Variable(i, up) => Bytes([OpByte(if up then OpGetUpvalue else OpGetLocal), i])
    case Binary(l, r, op, nf) => GenBinary(l, r, op, nf, k)
    case While(c, body) => GenWhile(c, body, k)
    case And(l, r) => GenAnd(l, r, k)
    case Or(l, r) => GenOr(l, r, k)
    case Ternary(l, m, alt) => GenTernary(l, m, alt, k)
    case Grouping(es, n, paren) => Then(GenAll(es, k), Bytes(GroupTail(n, paren)))
  }

  ghost function GenBinary(l: Expr, r: Option<Expr>, op: OpCode, nf: bool, k: nat): Emitted
    decreases Binary(l, r, op, nf), 0
  {
    var a := Gen(l, k);
    BinaryCode(a, if r.Some? then Gen(r.value, k + |a.consts|) else ConstantCode(FloatConst(-1.0), k + |a.consts|), op, nf)
  }

  ghost function GenWhile(c: Expr, body: Expr, k: nat): Emitted
    decreases While(c, body), 0
  {
    var a := Gen(c, k);
    WhileCode(a, Gen(body, k + |a.consts|))
  }

  ghost function GenAnd(l: Expr, r: Expr, k: nat): Emitted
    decreases And(l, r), 0
  {
    var a := Gen(l, k);
    AndCode(a, Gen(r, k + |a.consts|))
  }

  ghost function GenOr(l: Expr, r: Expr, k: nat): Emitted
    decreases Or(l, r), 0
  {
    var a := Gen(l, k);
    OrCode(a, Gen(r, k + |a.consts|))
  }

  ghost function GenTernary(l: Expr, m: Expr, alt: Option<Expr>, k: nat): Emitted
    decreases Ternary(l, m, alt), 0
  {
    var a := Gen(l, k);
    var b := Gen(m, k + |a.consts|);
    if alt.None? then TernaryCode(a, b) else TernaryElseCode(a, b, Gen(alt.value, k + |a.consts| + |b.consts|))
  }

  /** The code of a `while`, given the code of its condition and body. */
  lemma GenWhileOf(c: Expr, body: Expr, k: nat, a: Emitted, k2: nat, b: Emitted)
    requires a == Gen(c, k) && k2 == k + |a.consts| && b == Gen(body, k2)
    ensures GenWhile(c, body, k) == WhileCode(a, b)
  {
  }

  /** The code of `&&`, given the code of its operands. */
  lemma GenAndOf(l: Expr, r: Expr, k: nat, a: Emitted, k2: nat, b: Emitted)
    requires a == Gen(l, k) && k2 == k + |a.consts| && b == Gen(r, k2)
    ensures GenAnd(l, r, k) == AndCode(a, b)
  {
  }

  /** The code of `||`, given the code of its operands. */
  lemma GenOrOf(l: Expr, r: Expr, k: nat, a: Emitted, k2: nat, b: Emitted)
    requires a == Gen(l, k) && k2 == k + |a.consts| && b == Gen(r, k2)
    ensures GenOr(l, r, k) == OrCode(a, b)
  {
  }

  /** The code of a binary operator, given the code of its operands. */
  lemma GenBinaryOf(l: Expr, r: Option<Expr>, op: OpCode, nf: bool, k: nat, a: Emitted, k2: nat, b: Emitted)
    requires a == Gen(l, k) && k2 == k + |a.consts|
    requires b == if r.Some? then Gen(r.value, k2) else ConstantCode(FloatConst(-1.0), k2)
    ensures GenBinary(l, r, op, nf, k) == BinaryCode(a, b, op, nf)
  {
  }

  /** The code of a ternary without an else part, given the code of its operands. */
  lemma GenTernaryOf(l: Expr, m: Expr, k: nat, a: Emitted, k2: nat, b: Emitted)
    requires a == Gen(l, k) && k2 == k + |a.consts| && b == Gen(m, k2)
    ensures GenTernary(l, m, None, k) == TernaryCode(a, b)
  {
  }

  /** The code of a ternary with an else part, given the code of its operands. */
  lemma GenTernaryElseOf(l: Expr, m: Expr, alt: Expr, k: nat, a: Emitted, k2: nat, b: Emitted, k3: nat, c: Emitted)
    requires a == Gen(l, k) && k2 == k + |a.consts| && b == Gen(m, k2) && k3 == k2 + |b.consts| && c == Gen(alt, k3)
    ensures GenTernary(l, m, Some(alt), k) == TernaryElseCode(a, b, c)
  {
  }

  /** The code emitted for a list of expressions, one after the other. */
  ghost function GenAll(es: seq<Expr>, k: nat): Emitted
    decreases es, 0
  {
    if |es| == 0 then Emitted([], [], [])
    else
      var a := GenAll(es[..|es| - 1], k);
      Then(a, Gen(es[|es| - 1], k + |a.consts|))
  }

  /** The placeholder emitJump writes is the encoding of -1. */
  lemma PlaceholderIsMinusOne(op: OpCode)
    ensures Placeholder(op) == JumpCode(op, -1)
  {
  }

  /** patchJump's rewrite: the distance from past the operand to the end of the code, written into the operand at `offset`. */
  ghost function Patched(c: seq<byte>, offset: nat): seq<byte>
  {
    if offset + 2 <= |c| then
      var jump := |c| - offset - 2;
      c[offset := High(jump)][offset + 1 := Low(jump)]
    else c
  }

  /** Overwriting the placeholder operand of a jump emitted after `pre`. */
  lemma PatchPlaceholder(pre: seq<byte>, op: OpCode, v: int, post: seq<byte>)
    ensures (pre + Placeholder(op).bytes + post)[|pre| + 1 := High(v)][|pre| + 2 := Low(v)] == pre + JumpCode(op, v).bytes + post
  {
  }

  /** The parser's error state: panicMode, hadError and the messages reported so far. */
  datatype Status<M> = Status(panicMode: bool, hadError: bool, messages: seq<M>)

  /** errorAt: nothing in panic mode; otherwise report the message and enter panic mode. */
  function AfterError<M>(s: Status<M>, message: M): Status<M>
  {
    if s.panicMode then s else Status(true, true, s.messages + [message])
  }

  /** The state after each of `requests` went through errorAt in turn. */
  function AfterErrors<M>(s: Status<M>, requests: seq<M>): Status<M>
  {
    if |requests| == 0 then s else AfterError(AfterErrors(s, requests[..|requests| - 1]), requests[|requests| - 1])
  }

  lemma {:induction false} AfterErrorsConcat<M>(s: Status<M>, r1: seq<M>, r2: seq<M>)
    ensures AfterErrors(s, r1 + r2) == AfterErrors(AfterErrors(s, r1), r2)
    decreases |r2|
  {
    if |r2| == 0 {
      assert r1 + r2 == r1;
    } else {
      assert (r1 + r2)[..|r1 + r2| - 1] == r1 + r2[..|r2| - 1];
      AfterErrorsConcat(s, r1, r2[..|r2| - 1]);
    }
  }

  /**
   * Of a run of errors, only the first is reported, and only when the parser
   * was not already in panic mode; panic mode then holds, and hadError is
   * set exactly when something was reported.
   */
  lemma {:induction false} AfterErrorsReportsFirst<M>(s: Status<M>, requests: seq<M>)
    ensures AfterErrors(s, requests).messages ==
      s.messages + (if s.panicMode || |requests| == 0 then [] else [requests[0]])
    ensures AfterErrors(s, requests).panicMode == (s.panicMode || |requests| > 0)
    ensures AfterErrors(s, requests).hadError == (s.hadError || (!s.panicMode && |requests| > 0))
    decreases |requests|
  {
    if |requests| > 0 {
      AfterErrorsReportsFirst(s, requests[..|requests| - 1]);
      if |requests| > 1 {
        assert requests[..|requests| - 1][0] == requests[0];
      }
    }
  }

  /** Appending g to a generator holding `code`, `consts` and the error messages `errors`. */
  ghost predicate Appended(code: seq<byte>, consts: seq<Constant>, errors: seq<Message>,
                           code0: seq<byte>, consts0: seq<Constant>, errors0: seq<Message>, g: Emitted)
  {
    code == code0 + g.bytes && consts == consts0 + g.consts && errors == errors0 + g.errors
  }

  /** Appending g1 and then g2 appends Then(g1, g2). */
  lemma Chain(code0: seq<byte>, consts0: seq<Constant>, errors0: seq<Message>, g1: Emitted,
              code1: seq<byte>, consts1: seq<Constant>, errors1: seq<Message>, g2: Emitted,
              code2: seq<byte>, consts2: seq<Constant>, errors2: seq<Message>)
    requires Appended(code1, consts1, errors1, code0, consts0, errors0, g1)
    requires Appended(code2, consts2, errors2, code1, consts1, errors1, g2)
    ensures Appended(code2, consts2, errors2, code0, consts0, errors0, Then(g1, g2))
  {
    assert code2 == code0 + (g1.bytes + g2.bytes);
    assert consts2 == consts0 + (g1.consts + g2.consts);
    assert errors2 == errors0 + (g1.errors + g2.errors);
  }

  lemma ThenAssoc(x: Emitted, y: Emitted, z: Emitted)
    ensures Then(Then(x, y), z) == Then(x, Then(y, z))
  {
    assert (x.bytes + y.bytes) + z.bytes == x.bytes + (y.bytes + z.bytes);
    assert (x.consts + y.consts) + z.consts == x.consts + (y.consts + z.consts);
    assert (x.errors + y.errors) + z.errors == x.errors + (y.errors + z.errors);
  }

  lemma ThenNothing(x: Emitted)
    ensures Then(x, Errors([])) == x
  {
    assert x.bytes + [] == x.bytes && x.consts + [] == x.consts && x.errors + [] == x.errors;
  }

  /** Moving errors reported after z into z. */
  lemma Regroup(x: Emitted, y: Emitted, z: Emitted, e: seq<Message>)
    ensures Then(Then(x, Then(y, z)), Errors(e)) == Then(Then(x, y), Emitted(z.bytes, z.consts, z.errors + e))
  {
    assert (x.bytes + (y.bytes + z.bytes)) + [] == (x.bytes + y.bytes) + z.bytes;
    assert (x.consts + (y.consts + z.consts)) + [] == (x.consts + y.consts) + z.consts;
    assert (x.errors + (y.errors + z.errors)) + e == (x.errors + y.errors) + (z.errors + e);
  }

  /**
   * patchJump on a jump whose placeholder follows `pre`: the operand becomes
   * v, and the error for a jump that is too long comes after all that was
   * emitted.
   */
  lemma PatchStep(code0: seq<byte>, consts0: seq<Constant>, errors0: seq<Message>,
                  pre: Emitted, op: OpCode, e0: seq<Message>, rest: Emitted, v: int,
                  code: seq<byte>, consts: seq<Constant>, errors: seq<Message>, code2: seq<byte>, errors2: seq<Message>)
    requires Appended(code, consts, errors, code0, consts0, errors0, Then(Then(pre, Emitted(Placeholder(op).bytes, [], e0)), rest))
    requires code2 == code[|code0| + |pre.bytes| + 1 := High(v)][|code0| + |pre.bytes| + 2 := Low(v)]
    requires errors2 == errors + ErrorIf(v > Int16Max, JumpTooLarge)
    ensures Appended(code2, consts, errors2, code0, consts0, errors0,
                     Then(Then(Then(pre, Emitted(JumpCode(op, v).bytes, [], e0)), rest), Errors(ErrorIf(v > Int16Max, JumpTooLarge))))
  {
    PatchPlaceholder(code0 + pre.bytes, op, v, rest.bytes);
    assert code == (code0 + pre.bytes) + Placeholder(op).bytes + rest.bytes;
    assert code0 + ((pre.bytes + JumpCode(op, v).bytes) + rest.bytes) + [] == (code0 + pre.bytes) + JumpCode(op, v).bytes + rest.bytes;
    assert consts == consts0 + ((pre.consts + []) + rest.consts) + [];
    assert errors2 == errors0 + (((pre.errors + e0) + rest.errors) + ErrorIf(v > Int16Max, JumpTooLarge));
  }

  /** PatchStep for a jump placed with no error reported beside it. */
  lemma PatchClean(code0: seq<byte>, consts0: seq<Constant>, errors0: seq<Message>,
                   pre: Emitted, op: OpCode, rest: Emitted, v: int,
                   code: seq<byte>, consts: seq<Constant>, errors: seq<Message>, code2: seq<byte>, errors2: seq<Message>)
    requires Appended(code, consts, errors, code0, consts0, errors0, Then(Then(pre, Placeholder(op)), rest))
    requires code2 == code[|code0| + |pre.bytes| + 1 := High(v)][|code0| + |pre.bytes| + 2 := Low(v)]
    requires errors2 == errors + ErrorIf(v > Int16Max, JumpTooLarge)
    ensures Appended(code2, consts, errors2, code0, consts0, errors0,
                     Then(Then(Then(pre, JumpCode(op, v)), rest), Errors(ErrorIf(v > Int16Max, JumpTooLarge))))
  {
    assert Placeholder(op) == Emitted(Placeholder(op).bytes, [], []);
    assert JumpCode(op, v) == Emitted(JumpCode(op, v).bytes, [], []);
    PatchStep(code0, consts0, errors0, pre, op, [], rest, v, code, consts, errors, code2, errors2);
  }

  /** The steps of visitBinaryExpr for `while` after the body: emitLoop, then patchJump on the exit jump. */
  lemma WhileAssembled(code0: seq<byte>, consts0: seq<Constant>, errors0: seq<Message>, a: Emitted, b: Emitted,
                       code3: seq<byte>, consts3: seq<Constant>, errors3: seq<Message>,
                       code4: seq<byte>, consts4: seq<Constant>, errors4: seq<Message>,
                       offset: nat, code: seq<byte>, errors: seq<Message>)
    requires Appended(code3, consts3, errors3, code0, consts0, errors0, Then(Then(a, Placeholder(OpPopJumpIfFalse)), b))
    requires var back := |code3| + 1 - |code0| + 2;
      Appended(code4, consts4, errors4, code3, consts3, errors3,
               Emitted(JumpCode(OpJump, -back).bytes, [], ErrorIf(back > Int16Max, LoopTooLarge)))
    requires offset == |code0| + |a.bytes| + 1
    requires code == Patched(code4, offset) && errors == errors4 + ErrorIf(|code4| - offset - 2 > Int16Max, JumpTooLarge)
    ensures Appended(code, consts4, errors, code0, consts0, errors0, WhileCode(a, b))
  {
    var back := |a.bytes| + |b.bytes| + 6;
    var lp := Emitted(JumpCode(OpJump, -back).bytes, [], ErrorIf(back > Int16Max, LoopTooLarge));
    Chain(code0, consts0, errors0, Then(Then(a, Placeholder(OpPopJumpIfFalse)), b), code3, consts3, errors3, lp, code4, consts4, errors4);
    ThenAssoc(Then(a, Placeholder(OpPopJumpIfFalse)), b, lp);
    PatchClean(code0, consts0, errors0, a, OpPopJumpIfFalse, Then(b, lp), |b.bytes| + 3, code4, consts4, errors4, code, errors);
    Regroup(Then(a, JumpCode(OpPopJumpIfFalse, |b.bytes| + 3)), b, lp, ErrorIf(|b.bytes| + 3 > Int16Max, JumpTooLarge));
  }

  /** The steps of visitLogicalExpr for `&&` after the left operand, its jump and the pop: right, then patchJump. */
  lemma AndAssembled(code0: seq<byte>, consts0: seq<Constant>, errors0: seq<Message>, a: Emitted,
                     code3: seq<byte>, consts3: seq<Constant>, errors3: seq<Message>, b: Emitted,
                     offset: nat, code: seq<byte>, consts: seq<Constant>, errors: seq<Message>)
    requires Appended(code3, consts3, errors3, code0, consts0, errors0, Then(Then(a, Placeholder(OpJumpIfFalse)), Bytes([OpByte(OpPop)])))
    requires offset == |code0| + |a.bytes| + 1
    requires consts == consts3 + b.consts
    requires code == Patched(code3 + b.bytes, offset)
    requires errors == errors3 + b.errors + ErrorIf(|code3 + b.bytes| - offset - 2 > Int16Max, JumpTooLarge)
    ensures Appended(code, consts, errors, code0, consts0, errors0, AndCode(a, b))
  {
    var code4, consts4, errors4 := code3 + b.bytes, consts, errors3 + b.errors;
    var x := Then(a, Placeholder(OpJumpIfFalse));
    var pop := Bytes([OpByte(OpPop)]);
    Chain(code0, consts0, errors0, Then(x, pop), code3, consts3, errors3, b, code4, consts4, errors4);
    ThenAssoc(x, pop, b);
    PatchClean(code0, consts0, errors0, a, OpJumpIfFalse, Then(pop, b), |b.bytes| + 1, code4, consts4, errors4, code, errors);
    ThenAssoc(Then(a, JumpCode(OpJumpIfFalse, |b.bytes| + 1)), pop, b);
  }

  /** The steps of visitLogicalExpr for `||` after its jumps and pop: right, then patchJump on the end jump. */
  lemma OrAssembled(code0: seq<byte>, consts0: seq<Constant>, errors0: seq<Message>, a: Emitted,
                    code5: seq<byte>, consts5: seq<Constant>, errors5: seq<Message>, b: Emitted,
                    offset: nat, code: seq<byte>, consts: seq<Constant>, errors: seq<Message>)
    requires Appended(code5, consts5, errors5, code0, consts0, errors0,
                      Then(Then(Then(a, JumpCode(OpJumpIfFalse, 3)), Placeholder(OpJump)), Bytes([OpByte(OpPop)])))
    requires offset == |code0| + |a.bytes| + 4
    requires consts == consts5 + b.consts
    requires code == Patched(code5 + b.bytes, offset)
    requires errors == errors5 + b.errors + ErrorIf(|code5 + b.bytes| - offset - 2 > Int16Max, JumpTooLarge)
    ensures Appended(code, consts, errors, code0, consts0, errors0, OrCode(a, b))
  {
    var code6, consts6, errors6 := code5 + b.bytes, consts, errors5 + b.errors;
    var x := Then(a, JumpCode(OpJumpIfFalse, 3));
    var pop := Bytes([OpByte(OpPop)]);
    Chain(code0, consts0, errors0, Then(Then(x, Placeholder(OpJump)), pop), code5, consts5, errors5, b, code6, consts6, errors6);
    ThenAssoc(Then(x, Placeholder(OpJump)), pop, b);
    PatchClean(code0, consts0, errors0, x, OpJump, Then(pop, b), |b.bytes| + 1, code6, consts6, errors6, code, errors);
    ThenAssoc(Then(x, JumpCode(OpJump, |b.bytes| + 1)), pop, b);
  }

  /** The steps of visitBinaryExpr: left, right, then the opcode and OP_NOT when notFlag is set. */
  lemma BinaryAssembled(code0: seq<byte>, consts0: seq<Constant>, errors0: seq<Message>, a: Emitted,
                        code1: seq<byte>, consts1: seq<Constant>, errors1: seq<Message>, b: Emitted,
                        code2: seq<byte>, consts2: seq<Constant>, errors2: seq<Message>, op: OpCode, nf: bool,
                        code: seq<byte>, consts: seq<Constant>, errors: seq<Message>)
    requires Appended(code1, consts1, errors1, code0, consts0, errors0, a)
    requires Appended(code2, consts2, errors2, code1, consts1, errors1, b)
    requires Appended(code, consts, errors, code2, consts2, errors2, Bytes([OpByte(op)] + (if nf then [OpByte(OpNot)] else [])))
    ensures Appended(code, consts, errors, code0, consts0, errors0, BinaryCode(a, b, op, nf))
  {
    Chain(code0, consts0, errors0, a, code1, consts1, errors1, b, code2, consts2, errors2);
    Chain(code0, consts0, errors0, Then(a, b), code2, consts2, errors2, Bytes([OpByte(op)] + (if nf then [OpByte(OpNot)] else [])), code, consts, errors);
  }

  /** The steps of visitTernaryExpr without an else part after the middle: patchJump on the jump over it. */
  lemma TernaryAssembled(code0: seq<byte>, consts0: seq<Constant>, errors0: seq<Message>, a: Emitted, b: Emitted,
                         code3: seq<byte>, consts3: seq<Constant>, errors3: seq<Message>,
                         offset: nat, code: seq<byte>, errors: seq<Message>)
    requires Appended(code3, consts3, errors3, code0, consts0, errors0, Then(Then(a, Placeholder(OpPopJumpIfFalse)), b))
    requires offset == |code0| + |a.bytes| + 1
    requires code == Patched(code3, offset) && errors == errors3 + ErrorIf(|code3| - offset - 2 > Int16Max, JumpTooLarge)
    ensures Appended(code, consts3, errors, code0, consts0, errors0, TernaryCode(a, b))
  {
    PatchClean(code0, consts0, errors0, a, OpPopJumpIfFalse, b, |b.bytes|, code3, consts3, errors3, code, errors);
  }

  /** The steps of visitTernaryExpr with an else part after the else jump: the else part, then patchJump on the else jump. */
  lemma TernaryElseAssembled(code0: seq<byte>, consts0: seq<Constant>, errors0: seq<Message>, a: Emitted, b: Emitted,
                             code5: seq<byte>, consts5: seq<Constant>, errors5: seq<Message>, c: Emitted,
                             offset: nat, code: seq<byte>, consts: seq<Constant>, errors: seq<Message>)
    requires var v := |b.bytes| + 3;
      Appended(code5, consts5, errors5, code0, consts0, errors0,
               Then(Then(Then(a, JumpCode(OpPopJumpIfFalse, v)), b), Emitted(Placeholder(OpJump).bytes, [], ErrorIf(v > Int16Max, JumpTooLarge))))
    requires offset == |code0| + |a.bytes| + 3 + |b.bytes| + 1
    requires consts == consts5 + c.consts
    requires code == Patched(code5 + c.bytes, offset)
    requires errors == errors5 + c.errors + ErrorIf(|code5 + c.bytes| - offset - 2 > Int16Max, JumpTooLarge)
    ensures Appended(code, consts, errors, code0, consts0, errors0, TernaryElseCode(a, b, c))
  {
    var code6, consts6, errors6 := code5 + c.bytes, consts, errors5 + c.errors;
    var v := |b.bytes| + 3;
    var y := Then(Then(a, JumpCode(OpPopJumpIfFalse, v)), b);
    var e1 := ErrorIf(v > Int16Max, JumpTooLarge);
    Chain(code0, consts0, errors0, Then(y, Emitted(Placeholder(OpJump).bytes, [], e1)), code5, consts5, errors5, c, code6, consts6, errors6);
    PatchStep(code0, consts0, errors0, y, OpJump, e1, c, |c.bytes|, code6, consts6, errors6, code, errors);
  }

  /**
   * The code generator: the chunk's bytes and constant table, and the
   * messages it has passed to parser.error, in order (what the parser makes
   * of them is AfterErrors).
   */
  class CodeGenerator {
    var code: seq<byte>
    var constants: seq<Constant>
    var errors: seq<Message>

    constructor ()
      ensures code == [] && constants == [] && errors == []
    {
      code, constants, errors := [], [], [];
    }

    /** parser.error when `c` holds. */
    method ErrorWhen(c: bool, message: Message)
      modifies this
      ensures Appended(code, constants, errors, old(code), old(constants), old(errors), Errors(ErrorIf(c, message)))
    {
      if c {
        errors := errors + [message];
      }
    }

    method EmitByte(byte: byte)
      modifies this
      ensures Appended(code, constants, errors, old(code), old(constants), old(errors), Bytes([byte]))
    {
      code := code + [byte];
    }

    method EmitBytes(byte1: byte, byte2: byte)
      modifies this
      ensures Appended(code, constants, errors, old(code), old(constants), old(errors), Bytes([byte1, byte2]))
    {
      code := code + [byte1, byte2];
    }

    /** emitJump: the instruction and a two-byte placeholder; returns where the operand starts. */
    method EmitJump(instruction: OpCode) returns (offset: nat)
      modifies this
      ensures Appended(code, constants, errors, old(code), old(constants), old(errors), Placeholder(instruction))
      ensures offset == |old(code)| + 1 && constants == old(constants)
    {
      code := code + [OpByte(instruction), 0xff, 0xff];
      offset := |code| - 2;
    }

    /** patchJump: write the distance from past the operand to the end of the code into the operand. */
    method PatchJump(offset: nat)
      requires offset + 2 <= |code|
      modifies this
      ensures code == Patched(old(code), offset)
      ensures constants == old(constants) && errors == old(errors) + ErrorIf(|old(code)| - offset - 2 > Int16Max, JumpTooLarge)
    {
      var jump := |code| - offset - 2;
      ErrorWhen(jump > Int16Max, JumpTooLarge);
      HighLowShifts(jump);
      code := code[offset := ((jump / 256) % 256) as byte][offset + 1 := (jump % 256) as byte];
    }

    /** emitLoop: OP_JUMP and the negated distance from past the operand back to loopStart. */
    method EmitLoop(loopStart: nat)
      requires loopStart <= |code|
      modifies this
      ensures var back := |old(code)| + 1 - loopStart + 2;
        Appended(code, constants, errors, old(code), old(constants), old(errors),
                 Emitted(JumpCode(OpJump, -back).bytes, [], ErrorIf(back > Int16Max, LoopTooLarge)))
    {
      var offset := |code| + 1 - loopStart + 2;
      ErrorWhen(offset > Int16Max, LoopTooLarge);
      HighLowShifts(-offset);
      code := code + [OpByte(OpJump), ((-offset / 256) % 256) as byte, (-offset % 256) as byte];
    }

    /** makeConstant: add the value to the table; its index, or 0 with an error when it does not fit a byte. */
    method MakeConstant(value: Constant) returns (index: byte)
      modifies this
      ensures constants == old(constants) + [value] && code == old(code)
      ensures index == if |old(constants)| > Uint8Max then 0 else |old(constants)|
      ensures errors == old(errors) + ErrorIf(|old(constants)| > Uint8Max, TooManyConstants)
    {
      var constant := |constants|;
      constants := constants + [value];
      ErrorWhen(constant > Uint8Max, TooManyConstants);
      if constant > Uint8Max {
        index := 0;
      } else {
        index := constant;
      }
    }

    /** emitConstant: OP_CONSTANT and the constant's index. */
    method EmitConstant(value: Constant)
      modifies this
      ensures Appended(code, constants, errors, old(code), old(constants), old(errors), ConstantCode(value, |old(constants)|))
    {
      var index := MakeConstant(value);
      code := code + [OpByte(OpConstant), index];
    }

    /** accept on one of the modelled expressions: emit its code, which is returned as g. */
    method Emit(e: Expr) returns (ghost g: Emitted)
      modifies this
      ensures g == Gen(e, |old(constants)|)
      ensures Appended(code, constants, errors, old(code), old(constants), old(errors), g)
      decreases e, 3
    {
      match e {
        case Literal(v) =>
          EmitConstant(v);
          g := ConstantCode(v, |old(constants)|);
        case Variable(i, up) =>
          EmitBytes(OpByte(if up then OpGetUpvalue else OpGetLocal), i);
          g := Bytes([OpByte(if up then OpGetUpvalue else OpGetLocal), i]);
        case Binary(l, r, op, nf) =>
          g := EmitBinary(l, r, op, nf);
        case While(c, body) =>
          g := EmitWhile(c, body);
        case And(l, r) =>
          g := EmitAnd(l, r);
        case Or(l, r) =>
          g := EmitOr(l, r);
        case Ternary(l, m, alt) =>
          if alt.None? {
            g := EmitTernary(l, m);
          } else {
            g := EmitTernaryElse(l, m, alt.value);
          }
        case Grouping(es, n, paren) =>
          g := EmitGrouping(es, n, paren);
      }
    }

    /** An operand followed by a jump whose operand is still the placeholder; returns where the operand starts. */
    method EmitThenJump(e: Expr, instruction: OpCode) returns (ghost a: Emitted, offset: nat)
      modifies this
      ensures a == Gen(e, |old(constants)|)
      ensures Appended(code, constants, errors, old(code), old(constants), old(errors), Then(a, Placeholder(instruction)))
      ensures offset == |old(code)| + |a.bytes| + 1
      ensures |constants| == |old(constants)| + |a.consts|
      decreases e, 4
    {
      ghost var c0, k0, e0 := code, constants, errors;
      a := Emit(e);
      ghost var c1, k1, e1 := code, constants, errors;
      offset := EmitJump(instruction);
      Chain(c0, k0, e0, a, c1, k1, e1, Placeholder(instruction), code, constants, errors);
    }

    /** visitBinaryExpr for an operator other than `while`; a missing right operand is the constant -1.0. */
    method EmitBinary(l: Expr, r: Option<Expr>, op: OpCode, nf: bool) returns (ghost g: Emitted)
      modifies this
      ensures g == GenBinary(l, r, op, nf, |old(constants)|)
      ensures Appended(code, constants, errors, old(code), old(constants), old(errors), g)
      decreases Binary(l, r, op, nf), 2
    {
      ghost var c0, k0, e0 := code, constants, errors;
      ghost var a := Emit(l);
      ghost var c1, k1, e1 := code, constants, errors;
      ghost var b := EmitRight(r);
      GenBinaryOf(l, r, op, nf, |k0|, a, |k1|, b);
      ghost var c2, k2, e2 := code, constants, errors;
      EmitOperator(op, nf);
      BinaryAssembled(c0, k0, e0, a, c1, k1, e1, b, c2, k2, e2, op, nf, code, constants, errors);
      g := BinaryCode(a, b, op, nf);
    }

    /** The right operand of visitBinaryExpr, or the constant -1.0 when there is none. */
    method EmitRight(r: Option<Expr>) returns (ghost b: Emitted)
      modifies this
      ensures b == if r.Some? then Gen(r.value, |old(constants)|) else ConstantCode(FloatConst(-1.0), |old(constants)|)
      ensures Appended(code, constants, errors, old(code), old(constants), old(errors), b)
      decreases r, 1
    {
      if r.Some? {
        b := Emit(r.value);
      } else {
        EmitConstant(FloatConst(-1.0));
        b := ConstantCode(FloatConst(-1.0), |old(constants)|);
      }
    }

    /** The operator of visitBinaryExpr, and OP_NOT after it when notFlag is set. */
    method EmitOperator(op: OpCode, nf: bool)
      modifies this
      ensures Appended(code, constants, errors, old(code), old(constants), old(errors), Bytes([OpByte(op)] + (if nf then [OpByte(OpNot)] else [])))
    {
      if nf {
        EmitBytes(OpByte(op), OpByte(OpNot));
      } else {
        EmitByte(OpByte(op));
      }
    }

    /** visitBinaryExpr for `while`. */
    method EmitWhile(c: Expr, body: Expr) returns (ghost g: Emitted)
      modifies this
      ensures g == GenWhile(c, body, |old(constants)|)
      ensures Appended(code, constants, errors, old(code), old(constants), old(errors), g)
      decreases While(c, body), 2
    {
      ghost var c0, k0, e0 := code, constants, errors;
      var loopStart := |code|;
      ghost var a, k, b;
      var exitJump;
      a, k, b, exitJump := EmitWhileBody(c, body);
      GenWhileOf(c, body, |k0|, a, k, b);
      ghost var c3, k3, e3 := code, constants, errors;
      EmitLoop(loopStart);
      ghost var c4, k4, e4 := code, constants, errors;
      PatchJump(exitJump);
      WhileAssembled(c0, k0, e0, a, b, c3, k3, e3, c4, k4, e4, exitJump, code, errors);
      g := WhileCode(a, b);
    }

    /** The condition, the exit jump with its placeholder, and the body of a while loop. */
    method EmitWhileBody(c: Expr, body: Expr) returns (ghost a: Emitted, ghost k: nat, ghost b: Emitted, exitJump: nat)
      modifies this
      ensures a == Gen(c, |old(constants)|) && k == |old(constants)| + |a.consts| && b == Gen(body, k)
      ensures Appended(code, constants, errors, old(code), old(constants), old(errors), Then(Then(a, Placeholder(OpPopJumpIfFalse)), b))
      ensures exitJump == |old(code)| + |a.bytes| + 1
      ensures |constants| == |old(constants)| + |a.consts| + |b.consts|
      decreases While(c, body), 0
    {
      ghost var c0, k0, e0 := code, constants, errors;
      a, exitJump := EmitThenJump(c, OpPopJumpIfFalse);
      ghost var c2, k2, e2 := code, constants, errors;
      k := |k2|;
      b := Emit(body);
      Chain(c0, k0, e0, Then(a, Placeholder(OpPopJumpIfFalse)), c2, k2, e2, b, code, constants, errors);
    }

    /** An operand, then patchJump on a jump emitted before it, so that the jump lands past the operand. */
    method EmitPatched(e: Expr, offset: nat) returns (ghost b: Emitted)
      requires offset + 2 <= |code|
      modifies this
      ensures b == Gen(e, |old(constants)|)
      ensures constants == old(constants) + b.consts
      ensures code == Patched(old(code) + b.bytes, offset)
      ensures errors == old(errors) + b.errors + ErrorIf(|old(code) + b.bytes| - offset - 2 > Int16Max, JumpTooLarge)
      decreases e, 4
    {
      b := Emit(e);
      PatchJump(offset);
    }

    /** visitLogicalExpr for `&&`. */
    method EmitAnd(l: Expr, r: Expr) returns (ghost g: Emitted)
      modifies this
      ensures g == GenAnd(l, r, |old(constants)|)
      ensures Appended(code, constants, errors, old(code), old(constants), old(errors), g)
      decreases And(l, r), 2
    {
      ghost var c0, k0, e0 := code, constants, errors;
      ghost var a;
      var thenJump;
      a, thenJump := EmitAndLeft(l);
      ghost var c3, k3, e3 := code, constants, errors;
      ghost var b := EmitPatched(r, thenJump);
      AndAssembled(c0, k0, e0, a, c3, k3, e3, b, thenJump, code, constants, errors);
      g := AndCode(a, b);
      GenAndOf(l, r, |k0|, a, |k3|, b);
    }

    /** The left operand of `&&`, its jump with the placeholder, and the pop. */
    method EmitAndLeft(l: Expr) returns (ghost a: Emitted, thenJump: nat)
      modifies this
      ensures a == Gen(l, |old(constants)|)
      ensures Appended(code, constants, errors, old(code), old(constants), old(errors),
                       Then(Then(a, Placeholder(OpJumpIfFalse)), Bytes([OpByte(OpPop)])))
      ensures thenJump == |old(code)| + |a.bytes| + 1
      ensures |constants| == |old(constants)| + |a.consts|
      decreases l, 5
    {
      ghost var c0, k0, e0 := code, constants, errors;
      a, thenJump := EmitThenJump(l, OpJumpIfFalse);
      ghost var c2, k2, e2 := code, constants, errors;
      EmitByte(OpByte(OpPop));
      Chain(c0, k0, e0, Then(a, Placeholder(OpJumpIfFalse)), c2, k2, e2, Bytes([OpByte(OpPop)]), code, constants, errors);
    }

    /** visitLogicalExpr for `||`. */
    method EmitOr(l: Expr, r: Expr) returns (ghost g: Emitted)
      modifies this
      ensures g == GenOr(l, r, |old(constants)|)
      ensures Appended(code, constants, errors, old(code), old(constants), old(errors), g)
      decreases Or(l, r), 2
    {
      ghost var c0, k0, e0 := code, constants, errors;
      ghost var a;
      var endJump;
      a, endJump := EmitOrJumps(l);
      ghost var c5, k5, e5 := code, constants, errors;
      ghost var b := EmitPatched(r, endJump);
      OrAssembled(c0, k0, e0, a, c5, k5, e5, b, endJump, code, constants, errors);
      g := OrCode(a, b);
      GenOrOf(l, r, |k0|, a, |k5|, b);
    }

    /** The left operand of `||`, its two jumps (the first patched to skip the second), and the pop. */
    method EmitOrJumps(l: Expr) returns (ghost a: Emitted, endJump: nat)
      modifies this
      ensures a == Gen(l, |old(constants)|)
      ensures Appended(code, constants, errors, old(code), old(constants), old(errors),
                       Then(Then(Then(a, JumpCode(OpJumpIfFalse, 3)), Placeholder(OpJump)), Bytes([OpByte(OpPop)])))
      ensures endJump == |old(code)| + |a.bytes| + 4
      ensures |constants| == |old(constants)| + |a.consts|
      decreases l, 5
    {
      ghost var c0, k0, e0 := code, constants, errors;
      var elseJump;
      a, elseJump := EmitThenJump(l, OpJumpIfFalse);
      ghost var c2, k2, e2 := code, constants, errors;
      endJump := EmitJump(OpJump);
      Chain(c0, k0, e0, Then(a, Placeholder(OpJumpIfFalse)), c2, k2, e2, Placeholder(OpJump), code, constants, errors);
      ghost var c3, k3, e3 := code, constants, errors;
      PatchJump(elseJump);
      PatchClean(c0, k0, e0, a, OpJumpIfFalse, Placeholder(OpJump), 3, c3, k3, e3, code, errors);
      ghost var x := Then(a, JumpCode(OpJumpIfFalse, 3));
      ThenNothing(Then(x, Placeholder(OpJump)));
      ghost var c4, k4, e4 := code, constants, errors;
      EmitByte(OpByte(OpPop));
      Chain(c0, k0, e0, Then(x, Placeholder(OpJump)), c4, k4, e4, Bytes([OpByte(OpPop)]), code, constants, errors);
    }

    /** visitTernaryExpr without an else part. */
    method EmitTernary(l: Expr, m: Expr) returns (ghost g: Emitted)
      modifies this
      ensures g == GenTernary(l, m, None, |old(constants)|)
      ensures Appended(code, constants, errors, old(code), old(constants), old(errors), g)
      decreases Ternary(l, m, None), 2
    {
      ghost var c0, k0, e0 := code, constants, errors;
      ghost var a, k, b;
      var thenJump;
      a, k, b, thenJump := EmitTernaryHead(l, m, None);
      GenTernaryOf(l, m, |k0|, a, k, b);
      ghost var c3, k3, e3 := code, constants, errors;
      PatchJump(thenJump);
      TernaryAssembled(c0, k0, e0, a, b, c3, k3, e3, thenJump, code, errors);
      g := TernaryCode(a, b);
    }

    /** The condition, the jump with its placeholder, and the middle of a ternary. */
    method EmitTernaryHead(l: Expr, m: Expr, alt: Option<Expr>) returns (ghost a: Emitted, ghost k: nat, ghost b: Emitted, thenJump: nat)
      modifies this
      ensures a == Gen(l, |old(constants)|) && k == |old(constants)| + |a.consts| && b == Gen(m, k)
      ensures Appended(code, constants, errors, old(code), old(constants), old(errors), Then(Then(a, Placeholder(OpPopJumpIfFalse)), b))
      ensures |constants| == |old(constants)| + |a.consts| + |b.consts|
      ensures thenJump == |old(code)| + |a.bytes| + 1
      decreases Ternary(l, m, alt), 0
    {
      ghost var c0, k0, e0 := code, constants, errors;
      a, thenJump := EmitThenJump(l, OpPopJumpIfFalse);
      ghost var c2, k2, e2 := code, constants, errors;
      k := |k2|;
      b := Emit(m);
      Chain(c0, k0, e0, Then(a, Placeholder(OpPopJumpIfFalse)), c2, k2, e2, b, code, constants, errors);
    }

    /** visitTernaryExpr with an else part. */
    method EmitTernaryElse(l: Expr, m: Expr, alt: Expr) returns (ghost g: Emitted)
      modifies this
      ensures g == GenTernary(l, m, Some(alt), |old(constants)|)
      ensures Appended(code, constants, errors, old(code), old(constants), old(errors), g)
      decreases Ternary(l, m, Some(alt)), 2
    {
      ghost var c0, k0, e0 := code, constants, errors;
      ghost var a, k, b;
      var elseJump;
      a, k, b, elseJump := EmitTernaryMiddle(l, m, alt);
      ghost var c5, k5, e5 := code, constants, errors;
      ghost var c := EmitPatched(alt, elseJump);
      TernaryElseAssembled(c0, k0, e0, a, b, c5, k5, e5, c, elseJump, code, constants, errors);
      g := TernaryElseCode(a, b, c);
      GenTernaryElseOf(l, m, alt, |k0|, a, k, b, |k5|, c);
    }

    /** The condition and the middle of a ternary with an else part, the first jump patched, and the else jump. */
    method EmitTernaryMiddle(l: Expr, m: Expr, alt: Expr) returns (ghost a: Emitted, ghost k: nat, ghost b: Emitted, elseJump: nat)
      modifies this
      ensures a == Gen(l, |old(constants)|) && k == |old(constants)| + |a.consts| && b == Gen(m, k)
      ensures var v := |b.bytes| + 3;
        Appended(code, constants, errors, old(code), old(constants), old(errors),
                 Then(Then(Then(a, JumpCode(OpPopJumpIfFalse, v)), b), Emitted(Placeholder(OpJump).bytes, [], ErrorIf(v > Int16Max, JumpTooLarge))))
      ensures elseJump == |old(code)| + |a.bytes| + 3 + |b.bytes| + 1
      ensures |constants| == |old(constants)| + |a.consts| + |b.consts|
      decreases Ternary(l, m, Some(alt)), 1
    {
      ghost var c0, k0, e0 := code, constants, errors;
      var thenJump;
      a, k, b, thenJump := EmitTernaryHead(l, m, Some(alt));
      ghost var x := Then(a, Placeholder(OpPopJumpIfFalse));
      ghost var c3, k3, e3 := code, constants, errors;
      elseJump := EmitJump(OpJump);
      Chain(c0, k0, e0, Then(x, b), c3, k3, e3, Placeholder(OpJump), code, constants, errors);
      ThenAssoc(x, b, Placeholder(OpJump));
      ghost var c4, k4, e4 := code, constants, errors;
      PatchJump(thenJump);
      ghost var v := |b.bytes| + 3;
      PatchClean(c0, k0, e0, a, OpPopJumpIfFalse, Then(b, Placeholder(OpJump)), v, c4, k4, e4, code, errors);
      Regroup(Then(a, JumpCode(OpPopJumpIfFalse, v)), b, Placeholder(OpJump), ErrorIf(v > Int16Max, JumpTooLarge));
    }

    /** visitGroupingExpr: the expressions in order (their code is returned as g), then GroupTail. */
    method EmitGrouping(es: seq<Expr>, n: nat, paren: bool) returns (ghost g: Emitted)
      modifies this
      ensures g == Then(GenAll(es, |old(constants)|), Bytes(GroupTail(n, paren)))
      ensures Appended(code, constants, errors, old(code), old(constants), old(errors), g)
      decreases Grouping(es, n, paren), 2
    {
      ghost var c0, k0, e0 := code, constants, errors;
      var index := 0;
      while index < |es|
        invariant 0 <= index <= |es|
        invariant Appended(code, constants, errors, c0, k0, e0, GenAll(es[..index], |k0|))
      {
        ghost var h := GenAll(es[..index], |k0|);
        ghost var c1, k1, e1 := code, constants, errors;
        ghost var x := Emit(es[index]);
        assert es[..index + 1][..index] == es[..index];
        Chain(c0, k0, e0, h, c1, k1, e1, x, code, constants, errors);
        index := index + 1;
      }
      assert es[..index] == es;
      ghost var h := GenAll(es, |k0|);
      ghost var c1, k1, e1 := code, constants, errors;
      EmitGroupTail(n, paren);
      Chain(c0, k0, e0, h, c1, k1, e1, Bytes(GroupTail(n, paren)), code, constants, errors);
      g := Then(h, Bytes(GroupTail(n, paren)));
    }

    /** The end of visitGroupingExpr: one OP_POP per pop level, then OP_POP, OP_GET_LOCAL and the level count for a parenthesised group. */
    method EmitGroupTail(n: nat, paren: bool)
      modifies this
      ensures Appended(code, constants, errors, old(code), old(constants), old(errors), Bytes(GroupTail(n, paren)))
    {
      ghost var c1, k1, e1 := code, constants, errors;
      var popLevels: int := n - 1;
      while popLevels >= 0
        invariant -1 <= popLevels < n
        invariant Appended(code, constants, errors, c1, k1, e1, Bytes(Pops(n - 1 - popLevels)))
      {
        ghost var c2, k2, e2 := code, constants, errors;
        EmitByte(OpByte(OpPop));
        Chain(c1, k1, e1, Bytes(Pops(n - 1 - popLevels)), c2, k2, e2, Bytes([OpByte(OpPop)]), code, constants, errors);
        assert Pops(n - popLevels) == Pops(n - 1 - popLevels) + [OpByte(OpPop)];
        popLevels := popLevels - 1;
      }
      if paren {
        ghost var c2, k2, e2 := code, constants, errors;
        EmitBytes(OpByte(OpPop), OpByte(OpGetLocal));
        Chain(c1, k1, e1, Bytes(Pops(n)), c2, k2, e2, Bytes([OpByte(OpPop), OpByte(OpGetLocal)]), code, constants, errors);
        ghost var c3, k3, e3 := code, constants, errors;
        EmitByte(n % 256);
        Chain(c1, k1, e1, Bytes(Pops(n) + [OpByte(OpPop), OpByte(OpGetLocal)]), c3, k3, e3, Bytes([n % 256]), code, constants, errors);
      }
    }
  }
}
