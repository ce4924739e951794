/**
 * Where the jumps the code generator writes send the interpreter, and when
 * the generator reports that an offset does not fit: the partner of the
 * emission in CodeGen, read back the way the interpreter reads a jump.
 */
module Jumps {
  import opened Chunk
  import opened CodeGen

  /** A jump with operand v placed after `pre` lands v bytes past its operand. */
  lemma JumpAt(pre: seq<byte>, op: OpCode, v: int, post: seq<byte>)
    requires -32768 <= v <= Int16Max
    ensures |pre + JumpCode(op, v).bytes + post| == |pre| + 3 + |post|
    ensures Target(pre + JumpCode(op, v).bytes + post, |pre|) == |pre| + 3 + v
  {
    var w := pre + JumpCode(op, v).bytes + post;
    assert w[|pre| + 1] == High(v) && w[|pre| + 2] == Low(v);
    ShortRoundTrip(v);
  }

  /**
   * visitBinaryExpr for `while`: the exit jump lands just past the loop, the
   * jump back lands on the first byte of the condition, and no message is
   * added exactly when the whole loop fits a 16-bit offset.
   */
  lemma WhileJumps(a: Emitted, b: Emitted)
    ensures |WhileCode(a, b).bytes| == |a.bytes| + |b.bytes| + 6
    ensures WhileCode(a, b).errors == a.errors + b.errors <==> |a.bytes| + |b.bytes| + 6 <= Int16Max
    ensures |a.bytes| + |b.bytes| + 6 <= Int16Max ==>
      Target(WhileCode(a, b).bytes, |a.bytes|) == |WhileCode(a, b).bytes| &&
      Target(WhileCode(a, b).bytes, |a.bytes| + 3 + |b.bytes|) == 0
  {
    var back := |a.bytes| + |b.bytes| + 6;
    var w := WhileCode(a, b).bytes;
    if back <= Int16Max {
      var exitJump := JumpCode(OpPopJumpIfFalse, |b.bytes| + 3).bytes;
      var loop := JumpCode(OpJump, -back).bytes;
      assert w == a.bytes + exitJump + (b.bytes + loop);
      JumpAt(a.bytes, OpPopJumpIfFalse, |b.bytes| + 3, b.bytes + loop);
      assert w == (a.bytes + exitJump + b.bytes) + loop + [];
      JumpAt(a.bytes + exitJump + b.bytes, OpJump, -back, []);
    } else {
      assert |WhileCode(a, b).errors| > |a.errors + b.errors|;
    }
  }

  /**
   * visitLogicalExpr for `&&`: a false left operand jumps past the pop and
   * the right operand, leaving itself on the stack as the result.
   */
  lemma AndJumps(a: Emitted, b: Emitted)
    ensures |AndCode(a, b).bytes| == |a.bytes| + 4 + |b.bytes|
    ensures AndCode(a, b).bytes[|a.bytes| + 3] == OpByte(OpPop)
    ensures AndCode(a, b).errors == a.errors + b.errors <==> |b.bytes| + 1 <= Int16Max
    ensures |b.bytes| + 1 <= Int16Max ==> Target(AndCode(a, b).bytes, |a.bytes|) == |AndCode(a, b).bytes|
  {
    var w := AndCode(a, b).bytes;
    var jump := JumpCode(OpJumpIfFalse, |b.bytes| + 1).bytes;
    assert w == a.bytes + jump + ([OpByte(OpPop)] + b.bytes);
    if |b.bytes| + 1 <= Int16Max {
      JumpAt(a.bytes, OpJumpIfFalse, |b.bytes| + 1, [OpByte(OpPop)] + b.bytes);
    } else {
      assert |AndCode(a, b).errors| > |a.errors + b.errors|;
    }
  }

  /** The bytes and messages of `||`, flattened. */
  lemma OrLayout(a: Emitted, b: Emitted)
    ensures OrCode(a, b).bytes ==
      a.bytes + (JumpCode(OpJumpIfFalse, 3).bytes + (JumpCode(OpJump, |b.bytes| + 1).bytes + ([OpByte(OpPop)] + b.bytes)))
    ensures OrCode(a, b).errors == a.errors + b.errors + ErrorIf(|b.bytes| + 1 > Int16Max, JumpTooLarge)
  {
  }

  /**
   * visitLogicalExpr for `||`: a false left operand hops over the second
   * jump to the pop and the right operand; a true one takes the second jump
   * past them both.
   */
  lemma OrJumps(a: Emitted, b: Emitted)
    ensures |OrCode(a, b).bytes| == |a.bytes| + 7 + |b.bytes|
    ensures OrCode(a, b).bytes[|a.bytes| + 6] == OpByte(OpPop)
    ensures Target(OrCode(a, b).bytes, |a.bytes|) == |a.bytes| + 6
    ensures OrCode(a, b).errors == a.errors + b.errors <==> |b.bytes| + 1 <= Int16Max
    ensures |b.bytes| + 1 <= Int16Max ==> Target(OrCode(a, b).bytes, |a.bytes| + 3) == |OrCode(a, b).bytes|
  {
    OrLayout(a, b);
    var elseJump := JumpCode(OpJumpIfFalse, 3).bytes;
    var endJump := JumpCode(OpJump, |b.bytes| + 1).bytes;
    var rest := [OpByte(OpPop)] + b.bytes;
    JumpAt(a.bytes, OpJumpIfFalse, 3, endJump + rest);
    if |b.bytes| + 1 <= Int16Max {
      assert a.bytes + (elseJump + (endJump + rest)) == (a.bytes + elseJump) + endJump + rest;
      JumpAt(a.bytes + elseJump, OpJump, |b.bytes| + 1, rest);
    }
  }

  /** visitTernaryExpr without an else part: a false condition jumps past the middle. */
  lemma TernaryJumps(a: Emitted, b: Emitted)
    ensures |TernaryCode(a, b).bytes| == |a.bytes| + 3 + |b.bytes|
    ensures TernaryCode(a, b).errors == a.errors + b.errors <==> |b.bytes| <= Int16Max
    ensures |b.bytes| <= Int16Max ==> Target(TernaryCode(a, b).bytes, |a.bytes|) == |TernaryCode(a, b).bytes|
  {
    var w := TernaryCode(a, b).bytes;
    if |b.bytes| <= Int16Max {
      assert w == a.bytes + JumpCode(OpPopJumpIfFalse, |b.bytes|).bytes + b.bytes;
      JumpAt(a.bytes, OpPopJumpIfFalse, |b.bytes|, b.bytes);
    } else {
      assert |TernaryCode(a, b).errors| > |a.errors + b.errors|;
    }
  }

  /**
   * visitTernaryExpr with an else part: a false condition jumps to the first
   * byte of the else part, and the end of the middle jumps past it.
   */
  lemma TernaryElseJumps(a: Emitted, b: Emitted, c: Emitted)
    ensures |TernaryElseCode(a, b, c).bytes| == |a.bytes| + |b.bytes| + |c.bytes| + 6
    ensures TernaryElseCode(a, b, c).errors == a.errors + b.errors + c.errors <==>
      |b.bytes| + 3 <= Int16Max && |c.bytes| <= Int16Max
    ensures |b.bytes| + 3 <= Int16Max ==> Target(TernaryElseCode(a, b, c).bytes, |a.bytes|) == |a.bytes| + |b.bytes| + 6
    ensures |c.bytes| <= Int16Max ==>
      Target(TernaryElseCode(a, b, c).bytes, |a.bytes| + 3 + |b.bytes|) == |TernaryElseCode(a, b, c).bytes|
  {
    var w := TernaryElseCode(a, b, c).bytes;
    var v := |b.bytes| + 3;
    var thenJump := JumpCode(OpPopJumpIfFalse, v).bytes;
    var elseJump := JumpCode(OpJump, |c.bytes|).bytes;
    if v <= Int16Max {
      assert w == a.bytes + thenJump + (b.bytes + elseJump + c.bytes);
      JumpAt(a.bytes, OpPopJumpIfFalse, v, b.bytes + elseJump + c.bytes);
    }
    if |c.bytes| <= Int16Max {
      assert w == (a.bytes + thenJump + b.bytes) + elseJump + c.bytes;
      JumpAt(a.bytes + thenJump + b.bytes, OpJump, |c.bytes|, c.bytes);
    }
    var e := TernaryElseCode(a, b, c).errors;
    assert e == a.errors + b.errors + ErrorIf(v > Int16Max, JumpTooLarge) + c.errors + ErrorIf(|c.bytes| > Int16Max, JumpTooLarge);
    if v > Int16Max || |c.bytes| > Int16Max {
      assert |e| > |a.errors + b.errors + c.errors|;
    }
  }
}
