/**
 * Bytecode chunks (chunk.hpp, chunk.cpp): the instruction set, and a chunk's
 * growable code and line buffers with its constant table.
 */
module Chunk {
  import opened Memory
  import opened Value

  /** uint8_t. */
  type byte = b: int | 0 <= b < 256

  /** OpCode: a C enum, so each instruction is the number of its position in the declaration. */
  newtype OpCode = x: int | 0 <= x < 58

  const OpConstant: OpCode := 0
  const OpTrue: OpCode := 1
  const OpFalse: OpCode := 2
  const OpPop: OpCode := 3
  const OpGetLocalDir: OpCode := 4
  const OpAddLocal: OpCode := 5
  const OpMaxLocal: OpCode := 6
  const OpGetLocal: OpCode := 7
  const OpSetLocal: OpCode := 8
  const OpGetUpvalue: OpCode := 9
  const OpSetUpvalue: OpCode := 10
  const OpGetProperty: OpCode := 11
  const OpSetProperty: OpCode := 12
  const OpIntToFloat: OpCode := 13
  const OpFloatToInt: OpCode := 14
  const OpIntToString: OpCode := 15
  const OpFloatToString: OpCode := 16
  const OpBoolToString: OpCode := 17
  const OpEqualString: OpCode := 18
  const OpGreaterString: OpCode := 19
  const OpAddString: OpCode := 20
  const OpLessString: OpCode := 21
  const OpEqualInt: OpCode := 22
  const OpGreaterInt: OpCode := 23
  const OpLessInt: OpCode := 24
  const OpAddInt: OpCode := 25
  const OpSubtractInt: OpCode := 26
  const OpMultiplyInt: OpCode := 27
  const OpDivideInt: OpCode := 28
  const OpEqualFloat: OpCode := 29
  const OpGreaterFloat: OpCode := 30
  const OpLessFloat: OpCode := 31
  const OpAddFloat: OpCode := 32
  const OpSubtractFloat: OpCode := 33
  const OpMultiplyFloat: OpCode := 34
  const OpDivideFloat: OpCode := 35
  const OpNot: OpCode := 36
  const OpNegateFloat: OpCode := 37
  const OpNegateInt: OpCode := 38
  const OpBitwiseOr: OpCode := 39
  const OpBitwiseAnd: OpCode := 40
  const OpBitwiseXor: OpCode := 41
  const OpLogicalOr: OpCode := 42
  const OpLogicalAnd: OpCode := 43
  const OpShiftLeft: OpCode := 44
  const OpShiftRight: OpCode := 45
  const OpShiftUright: OpCode := 46
  const OpPrint: OpCode := 47
  const OpJump: OpCode := 48
  const OpJumpIfFalse: OpCode := 49
  const OpPopJumpIfFalse: OpCode := 50
  const OpNew: OpCode := 51
  const OpCall: OpCode := 52
  const OpClosure: OpCode := 53
  const OpCloseUpvalue: OpCode := 54
  const OpReturn: OpCode := 55
  const OpHalt: OpCode := 56
  const OpHaltHandler: OpCode := 57

  /** The byte an opcode is written as. */
  function OpByte(op: OpCode): byte
  {
    op as int
  }

  /** The integer arithmetic and comparison opcodes, OP_EQUAL_INT to OP_DIVIDE_INT. */
  predicate IsIntArith(op: OpCode)
  {
    OpEqualInt <= op <= OpDivideInt
  }

  /** The float arithmetic and comparison opcodes, OP_EQUAL_FLOAT to OP_DIVIDE_FLOAT. */
  predicate IsFloatArith(op: OpCode)
  {
    OpEqualFloat <= op <= OpDivideFloat
  }

  /** OP_ADD_FLOAT - OP_ADD_INT. */
  const FloatShift: int := OpAddFloat as int - OpAddInt as int

  /** The opcode the resolver switches an integer operation to when its operands are floats. */
  function FloatTwin(op: OpCode): (r: OpCode)
    requires IsIntArith(op)
    ensures IsFloatArith(r) && !IsIntArith(r)
  {
    (op as int + FloatShift) as OpCode
  }

  /**
   * Adding OP_ADD_FLOAT - OP_ADD_INT (7) to an integer arithmetic or
   * comparison opcode gives its float twin, because the two groups are
   * declared in the same order one after the other.
   */
  lemma FloatShiftMapsTwins()
    ensures FloatShift == 7
    ensures FloatTwin(OpEqualInt) == OpEqualFloat && FloatTwin(OpGreaterInt) == OpGreaterFloat
    ensures FloatTwin(OpLessInt) == OpLessFloat && FloatTwin(OpAddInt) == OpAddFloat
    ensures FloatTwin(OpSubtractInt) == OpSubtractFloat && FloatTwin(OpMultiplyInt) == OpMultiplyFloat
    ensures FloatTwin(OpDivideInt) == OpDivideFloat
    ensures forall op :: IsFloatArith(op) ==> IsIntArith((op as int - FloatShift) as OpCode) && FloatTwin((op as int - FloatShift) as OpCode) == op
  {
  }

  /**
   * Chunk: `count` instructions and their source lines in two buffers of
   * `capacity` slots (none while the capacity is 0), and the constant table.
   */
  class Chunk<V(0)> {
    var count: nat
    var capacity: nat
    var code: array?<byte>
    var lines: array?<int>
    var constants: ValueArray<V>

    ghost predicate Valid()
      reads this, constants
    {
      count <= capacity &&
      (code == null <==> capacity == 0) && (code != null ==> code.Length == capacity) &&
      (lines == null <==> capacity == 0) && (lines != null ==> lines.Length == capacity) &&
      (code != null ==> code as object != lines as object) && constants.Valid()
    }

    /** The bytes written so far. */
    ghost function Bytes(): seq<byte>
      reads this, code
      requires count <= capacity && (code == null <==> capacity == 0) && (code != null ==> code.Length == capacity)
    {
      if code == null then [] else code[..count]
    }

    /** The line of each byte written so far. */
    ghost function Lines(): seq<int>
      reads this, lines
      requires count <= capacity && (lines == null <==> capacity == 0) && (lines != null ==> lines.Length == capacity)
    {
      if lines == null then [] else lines[..count]
    }

    /** init: no code, no lines, no constants. */
    constructor ()
      ensures Valid() && count == 0 && capacity == 0 && code == null && lines == null
      ensures fresh(constants) && constants.Contents() == []
    {
      count, capacity, code, lines := 0, 0, null, null;
      constants := new ValueArray();
    }

    /** init on an existing chunk. */
    method Init()
      requires constants.Valid()
      modifies this, constants
      ensures Valid() && count == 0 && capacity == 0 && code == null && lines == null
      ensures constants == old(constants) && constants.Contents() == []
    {
      count := 0;
      capacity := 0;
      code := null;
      lines := null;
      constants.Init();
    }

    /** uninit: release the code, line and constant storage. */
    method Uninit()
      requires constants.Valid()
      modifies constants
      ensures constants.Valid() && constants.Contents() == [] && constants.capacity == 0
    {
      constants.Free();
    }

    /** reset: uninit, then init: an empty chunk. */
    method Reset()
      requires constants.Valid()
      modifies this, constants
      ensures Valid() && count == 0 && capacity == 0 && Bytes() == [] && Lines() == []
      ensures constants == old(constants) && constants.Contents() == []
    {
      Uninit();
      Init();
    }

    /** writeChunk: grow both buffers when full, then store the byte and its line at `count`. */
    method WriteChunk(byte: byte, line: int)
      requires Valid()
      modifies this, code, lines
      ensures Valid() && constants == old(constants)
      ensures (code == old(code) || fresh(code)) && (lines == old(lines) || fresh(lines))
      ensures Bytes() == old(Bytes()) + [byte] && Lines() == old(Lines()) + [line]
      ensures count == old(count) + 1
      ensures capacity == if old(count) >= old(capacity) then GrowCapacity(old(capacity)) else old(capacity)
    {
      var oldCapacity := capacity;
      ghost var bytes, ls := Bytes(), Lines();
      if count >= oldCapacity {
        capacity := GrowCapacity(oldCapacity);
        code := Reallocate(code, oldCapacity, capacity);
        lines := Reallocate(lines, oldCapacity, capacity);
        assert code[..count] == bytes && lines[..count] == ls;
      }
      code[count] := byte;
      lines[count] := line;
      assert code[..count + 1] == bytes + [byte];
      assert lines[..count + 1] == ls + [line];
      count := count + 1;
    }

    /** addConstant: store the value at the end of the constant table and return its index. */
    method AddConstant(value: V) returns (index: nat)
      requires Valid()
      modifies constants, constants.values
      ensures Valid() && unchanged(this)
      ensures index == old(|constants.Contents()|)
      ensures constants.Contents() == old(constants.Contents()) + [value]
      ensures constants.Contents()[index] == value
    {
      index := constants.count;
      constants.Write(value);
    }
  }
}
