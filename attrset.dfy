/**
 * Bit tricks of attrset.cpp on 64-bit words: ctz0 isolates and clears the
 * lowest set bit, ctz returns its index, getLargestDim finds the highest set
 * bit by calling ctz until the word is empty, and getSizerType reads one bit
 * of a child's direction mask.  A `long` is a `bv64`: `-n` is two's
 * complement negation, as the C code relies on.  Bit indices are `bv7`
 * inside the proofs and `int` where the C code returns them.
 */
module AttrSets {
  import Sizers

  /** Bit `k` of `n` (none beyond 63). */
  predicate HasBit(n: bv64, k: bv7)
  {
    k < 64 && (n >> k) & 1 == 1
  }

  /** `bit` is the lowest set bit of `n`: a single bit, set in `n`, with nothing of `n` below it. */
  predicate IsLowestBit(n: bv64, bit: bv64)
  {
    bit != 0 && bit & (bit - 1) == 0 && n & bit == bit && n & (bit - 1) == 0
  }

  /** ctz0: returns the lowest set bit of `*n` and clears it there; 0, with `*n` unchanged, when `*n` is 0. */
  method Ctz0(n: bv64) returns (bit: bv64, n': bv64)
    ensures n == 0 ==> bit == 0 && n' == n
    ensures n != 0 ==> IsLowestBit(n, bit) && n' == n ^ bit
  {
    if n == 0 {
      return 0, n;
    }
    bit := n & -n;
    n' := n ^ bit;
  }

  /**
   * ctz: the index of the lowest set bit of `*n`, found by halving, with
   * that bit cleared; -1, with `*n` unchanged, when `*n` is 0.  The C code
   * shifts a signed `long`, whose sign copies only reach bits no later test
   * reads, so a logical shift computes the same index.  `d` is the index as
   * a bit position.
   */
  method Ctz(n: bv64) returns (num: int, n': bv64, ghost d: bv7)
    ensures n == 0 <==> num == -1
    ensures n == 0 ==> n' == n
    ensures n != 0 ==> 0 <= num < 64 && d < 64 && num == d as int && IsLowestBit(n, 1 << d) && n' == n ^ (1 << d)
  {
    var bit;
    bit, n' := Ctz0(n);
    if bit == 0 {
      return -1, n', 0;
    }
    var b := BitIndex(bit);
    num := b as int;
    d := b;
    Bv7Range(b);
  }

  /** The halving search of ctz: the index of a single set bit. */
  method BitIndex(bit: bv64) returns (b: bv7)
    requires bit != 0 && bit & (bit - 1) == 0
    ensures b < 64 && 1 << b == bit
  {
    var rest := bit;
    b := 0;
    if rest & 0x0000_0000_FFFF_FFFF == 0 {
      b := 32;
      rest := rest >> 32;
    }
    if rest & 0xFFFF == 0 {
      b := b + 16;
      rest := rest >> 16;
    }
    if rest & 0xFF == 0 {
      b := b + 8;
      rest := rest >> 8;
    }
    if rest & 0xF == 0 {
      b := b + 4;
      rest := rest >> 4;
    }
    if rest & 0x3 == 0 {
      b := b + 2;
      rest := rest >> 2;
    }
    if rest & 0x1 == 0 {
      b := b + 1;
    }
  }

  /** Bit facts about one index, which the loop proofs combine. */
  lemma LowestHas(n: bv64, d: bv7)
    requires d < 64 && IsLowestBit(n, 1 << d)
    ensures HasBit(n, d)
  {
  }
  lemma LowestFirst(n: bv64, d: bv7, k: bv7)
    requires d < 64 && IsLowestBit(n, 1 << d) && k < d
    ensures !HasBit(n, k)
  {
  }
  lemma ClearOne(n: bv64, d: bv7, k: bv7)
    requires d < 64 && HasBit(n, d)
    ensures HasBit(n ^ (1 << d), k) <==> HasBit(n, k) && k != d
  {
  }
  lemma NoBits(n: bv64, k: bv7)
    requires n == 0
    ensures !HasBit(n, k)
  {
  }

  /** After ctz on `cur` found bit d: what is left are exactly the bits of `cur` above d. */
  lemma CtzStep(cur: bv64, d: bv7)
    requires d < 64 && IsLowestBit(cur, 1 << d)
    ensures HasBit(cur, d)
    ensures forall k :: HasBit(cur ^ (1 << d), k) <==> HasBit(cur, k) && d < k
  {
    LowestHas(cur, d);
    forall k
      ensures HasBit(cur ^ (1 << d), k) <==> HasBit(cur, k) && d < k
    {
      ClearOne(cur, d, k);
      if k < d {
        LowestFirst(cur, d, k);
      }
    }
  }

  lemma Bv7RoundTrip(b: bv7)
    ensures (b as int) as bv7 == b
  {
  }

  lemma Bv7Range(b: bv7)
    requires b < 64
    ensures 0 <= b as int < 64
  {
  }

  lemma Bv7Ints(a: bv7, b: bv7)
    requires a < b < 64
    ensures a as int < b as int
  {
  }

  /**
   * The state of getLargestDim's loop after a call of ctz: either it found
   * bit d and `cur` holds exactly the bits of `flags` above d, or it found
   * nothing and `top` is the highest bit of `flags`.
   */
  ghost predicate Scan(flags: bv64, cur: bv64, dimIndex: int, d: bv7, top: bv7, largestDim: int)
  {
    largestDim == top as int &&
    (dimIndex != -1 ==>
      0 <= dimIndex < 64 && d < 64 && dimIndex == d as int && HasBit(flags, d) &&
      forall k :: HasBit(cur, k) <==> HasBit(flags, k) && d < k) &&
    (dimIndex == -1 ==> (flags == 0 && top == 0) || (top < 64 && HasBit(flags, top) && forall k :: top < k ==> !HasBit(flags, k)))
  }

  lemma ScanStart(flags: bv64, cur: bv64, dimIndex: int, d: bv7)
    requires flags == 0 <==> dimIndex == -1
    requires flags == 0 ==> cur == flags
    requires flags != 0 ==> 0 <= dimIndex < 64 && d < 64 && dimIndex == d as int && IsLowestBit(flags, 1 << d) && cur == flags ^ (1 << d)
    ensures Scan(flags, cur, dimIndex, d, 0, 0)
  {
    if dimIndex != -1 {
      CtzStep(flags, d);
    }
  }

  lemma ScanStep(flags: bv64, before: bv64, top: bv7, largestDim: int, cur: bv64, dimIndex: int, d: bv7)
    requires 0 <= largestDim < 64 && top < 64 && largestDim == top as int && HasBit(flags, top)
    requires forall k :: HasBit(before, k) <==> HasBit(flags, k) && top < k
    requires before == 0 <==> dimIndex == -1
    requires before == 0 ==> cur == before
    requires before != 0 ==> 0 <= dimIndex < 64 && d < 64 && dimIndex == d as int && IsLowestBit(before, 1 << d) && cur == before ^ (1 << d)
    ensures Scan(flags, cur, dimIndex, d, top, largestDim)
    ensures dimIndex != -1 ==> largestDim < dimIndex
  {
    if dimIndex != -1 {
      CtzStep(before, d);
      Bv7Ints(top, d);
    } else {
      forall k | top < k
        ensures !HasBit(flags, k)
      {
        NoBits(before, k);
      }
    }
  }

  method GetLargestDim(flags: bv64) returns (largestDim: int)
    ensures flags == 0 ==> largestDim == 0
    ensures flags != 0 ==> 0 <= largestDim < 64 && IsHighest(flags, largestDim)
  {
    largestDim := 0;
    ghost var top: bv7 := 0;
    var cur := flags;
    var dimIndex;
    ghost var d: bv7;
    dimIndex, cur, d := Ctz(cur);
    ScanStart(flags, cur, dimIndex, d);
    while dimIndex != -1
      invariant Scan(flags, cur, dimIndex, d, top, largestDim)
      decreases if dimIndex == -1 then 0 else 64 - dimIndex
    {
      largestDim := dimIndex;
      top := d;
      ghost var before := cur;
      dimIndex, cur, d := Ctz(cur);
      ScanStep(flags, before, top, largestDim, cur, dimIndex, d);
    }
    LargestFound(flags, top, largestDim);
  }

  ghost predicate IsHighest(flags: bv64, r: int)
    requires 0 <= r < 64
  {
    HasBit(flags, r as bv7) && forall k :: r as bv7 < k ==> !HasBit(flags, k)
  }

  lemma LargestFound(flags: bv64, top: bv7, largestDim: int)
    requires largestDim == top as int
    requires (flags == 0 && top == 0) || (top < 64 && HasBit(flags, top) && forall k :: top < k ==> !HasBit(flags, k))
    ensures flags == 0 ==> largestDim == 0
    ensures flags != 0 ==> 0 <= largestDim < 64 && IsHighest(flags, largestDim)
  {
    Bv7RoundTrip(top);
  }

  /** getSizerType: an adder or a maxer, never another kind of sizer. */
  function GetSizerType(childDir: bv32, dir: bv32): (t: Sizers.SizerType)
    requires dir < 32
    ensures t == Sizers.AdderType || t == Sizers.MaxerType
  {
    if childDir & (1 << dir) != 0 then Sizers.AdderType else Sizers.MaxerType
  }

  /**
   * Only bit `dir` of the child's direction mask decides: setting it makes
   * the sizer an adder, clearing it a maxer.
   */
  lemma AdderExactly(childDir: bv32, dir: bv32)
    requires dir < 32
    ensures GetSizerType(childDir | (1 << dir), dir) == Sizers.AdderType
    ensures GetSizerType(childDir & !(1 << dir), dir) == Sizers.MaxerType
  {
  }
}
