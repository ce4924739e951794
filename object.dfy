/**
 * Runtime structures of object.cpp: the IndexList bit set, a callable's
 * upvalue table, the value stack of a CoThread and its list of open
 * upvalues.  An IndexList keeps its indices in 64-bit words: index i is bit
 * i % 64 of word i / 64 (the C code writes these as `i & 0x3F` and `i >> 6`,
 * the same for the non-negative indices it is given).
 */
module Objects {
  import opened AttrSets

  /** Bit k of word n, read through the mask `1L << k`. */
  predicate Bit(n: bv64, k: bv7)
  {
    k < 64 && n & (1 << k) != 0
  }

  /**
   * Bit i of word n, for an int position i: bit 0 is the low bit, bit i is
   * bit i - 1 of `n >> 1`.  Int positions keep the index arithmetic apart
   * from the bit-vector facts, which Bridge connects.
   */
  predicate WordBit(n: bv64, i: int)
    decreases i
  {
    0 <= i < 64 && (if i == 0 then n & 1 == 1 else WordBit(n >> 1, i - 1))
  }

  /** Index j is in the bit set held by `ws`. */
  predicate IsSet(ws: seq<bv64>, j: int)
  {
    0 <= j && j / 64 < |ws| && WordBit(ws[j / 64], j % 64)
  }

  /** The mask of the bits below m, `(1L << m) - 1`; all ones when m is 64. */
  function LowMask(m: bv7): bv64
    requires m <= 64
  {
    (1 << m) - 1
  }

  /** A bit position as an int, counted up one at a time (equal to `b as int`, see PosValue). */
  function Pos(b: bv7): nat
    decreases b as int
  {
    if b == 0 then 0 else Pos(b - 1) + 1
  }

  /** The bit position of an int, counted up one at a time. */
  function FromPos(i: int): bv7
    requires 0 <= i < 64
  {
    if i == 0 then 0 else FromPos(i - 1) + 1
  }

  // Bit facts about one word, each proved on its own.

  lemma Survives(m: bv7, k: bv7)
    requires m <= k && k < 64
    ensures !LowMask(m) & (1 << k) == 1 << k
  {
  }

  lemma Dropped(m: bv7, k: bv7)
    requires k < m <= 64
    ensures !LowMask(m) & (1 << k) == 0
  {
  }

  lemma Masked(w: bv64, x: bv64, p: bv64)
    ensures (w & x) & p == (w & p) & x
  {
  }

  lemma KeepAbove(w: bv64, m: bv7, k: bv7)
    requires m <= k && k < 64
    ensures Bit(w & !LowMask(m), k) <==> Bit(w, k)
  {
    Survives(m, k);
    Masked(w, !LowMask(m), 1 << k);
  }

  lemma ClearBelow(w: bv64, m: bv7, k: bv7)
    requires k < m <= 64
    ensures !Bit(w & !LowMask(m), k)
  {
    Dropped(m, k);
    Masked(w, !LowMask(m), 1 << k);
  }

  lemma SetOne(w: bv64, b: bv7, k: bv7)
    requires b < 64
    ensures Bit(w | (1 << b), k) <==> Bit(w, k) || k == b
  {
  }

  lemma GetBit(w: bv64, b: bv7)
    requires b < 64
    ensures ((w >> b) & 1) as int == if Bit(w, b) then 1 else 0
  {
  }

  lemma Lowest(n: bv64, d: bv7, k: bv7)
    requires d < 64 && IsLowestBit(n, 1 << d)
    ensures Bit(n, d)
    ensures k < d ==> !Bit(n, k)
  {
  }

  lemma ShiftBit(n: bv64, k: bv7)
    requires k < 63
    ensures Bit(n >> 1, k) <==> Bit(n, k + 1)
  {
  }

  lemma AllMasked(w: bv64)
    ensures w & !0xFFFF_FFFF_FFFF_FFFF == 0 && LowMask(0) == 0
  {
  }

  lemma Succ(y: bv7)
    requires y < 64
    ensures y + 1 != 0 && (y + 1) - 1 == y && y + 1 <= 64
  {
  }

  lemma Bv7Order(a: bv7, b: bv7)
    ensures a < b <==> a as int < b as int
    ensures a <= b <==> a as int <= b as int
  {
  }

  // Bit positions as bv7 and as int.

  lemma {:induction false} PosValue(b: bv7)
    ensures Pos(b) == b as int
    decreases b as int
  {
    if b != 0 {
      Bv7Pred(b);
      PosValue(b - 1);
    }
  }

  lemma Bv7Pred(b: bv7)
    requires 0 < b
    ensures (b - 1) as int == b as int - 1 && (b - 1) + 1 == b
  {
  }

  lemma PosOrder(a: bv7, b: bv7)
    ensures a < b <==> Pos(a) < Pos(b)
    ensures a <= b <==> Pos(a) <= Pos(b)
  {
    PosValue(a);
    PosValue(b);
    Bv7Order(a, b);
  }

  lemma PosRange(b: bv7)
    requires b <= 64
    ensures Pos(b) <= 64 && (b < 64 ==> Pos(b) < 64)
  {
    PosValue(b);
    Bv7Order(b, 64);
  }

  lemma PosSucc(b: bv7)
    requires b < 64
    ensures b + 1 <= 64 && Pos(b + 1) == Pos(b) + 1
  {
    Succ(b);
  }

  lemma {:induction false} FromPosValue(i: int)
    requires 0 <= i < 64
    ensures FromPos(i) < 64 && Pos(FromPos(i)) == i
  {
    if i > 0 {
      FromPosValue(i - 1);
      var y := FromPos(i - 1);
      PosOrder(y, 63);
      PosValue(63);
      Succ(y);
    }
  }

  /** `x as bv7`, as the C code's `x & 0x3F` computes it, is FromPos. */
  lemma AsPos(x: int)
    requires 0 <= x < 64
    ensures x as bv7 < 64 && Pos(x as bv7) == x
  {
    PosValue(x as bv7);
  }

  /** WordBit at a bv7 position is Bit. */
  lemma {:induction false} Bridge(n: bv64, b: bv7)
    requires b < 64
    ensures WordBit(n, Pos(b)) <==> Bit(n, b)
    decreases b as int
  {
    if b > 0 {
      Bv7Pred(b);
      Bridge(n >> 1, b - 1);
      ShiftBit(n, b - 1);
      PosRange(b);
      PosRange(b - 1);
    }
  }

  // The same facts at int positions.

  lemma {:induction false} ZeroInt(i: int)
    ensures !WordBit(0, i)
    decreases i
  {
    if 0 < i < 64 {
      ZeroInt(i - 1);
    }
  }

  lemma KeepAboveInt(w: bv64, m: bv7, i: int)
    requires m <= 64 && Pos(m) <= i < 64
    ensures WordBit(w & !LowMask(m), i) <==> WordBit(w, i)
  {
    FromPosValue(i);
    var b := FromPos(i);
    Bridge(w, b);
    Bridge(w & !LowMask(m), b);
    PosOrder(m, b);
    KeepAbove(w, m, b);
  }

  lemma ClearBelowInt(w: bv64, m: bv7, i: int)
    requires m <= 64 && 0 <= i < Pos(m)
    ensures !WordBit(w & !LowMask(m), i)
  {
    PosRange(m);
    FromPosValue(i);
    var b := FromPos(i);
    Bridge(w & !LowMask(m), b);
    PosOrder(b, m);
    ClearBelow(w, m, b);
  }

  lemma LowestInt(n: bv64, d: bv7, i: int)
    requires d < 64 && IsLowestBit(n, 1 << d)
    ensures Pos(d) < 64 && WordBit(n, Pos(d))
    ensures 0 <= i < Pos(d) ==> !WordBit(n, i)
  {
    PosRange(d);
    Bridge(n, d);
    Lowest(n, d, d);
    if 0 <= i < Pos(d) {
      FromPosValue(i);
      var b := FromPos(i);
      Bridge(n, b);
      PosOrder(b, d);
      Lowest(n, d, b);
    }
  }

  lemma SetOneInt(w: bv64, b: bv7, i: int)
    requires b < 64
    ensures WordBit(w | (1 << b), i) <==> WordBit(w, i) || i == Pos(b)
  {
    PosRange(b);
    if 0 <= i < 64 {
      FromPosValue(i);
      var c := FromPos(i);
      Bridge(w | (1 << b), c);
      Bridge(w, c);
      SetOne(w, b, c);
      PosOrder(b, c);
      PosOrder(c, b);
    }
  }

  lemma GetBitInt(w: bv64, b: bv7)
    requires b < 64
    ensures ((w >> b) & 1) as int == if WordBit(w, Pos(b)) then 1 else 0
  {
    GetBit(w, b);
    Bridge(w, b);
  }

  /** Index 64 * w + i is set exactly when bit i of word w is. */
  lemma At(ws: seq<bv64>, w: int, i: int)
    requires 0 <= w && 0 <= i < 64
    ensures IsSet(ws, 64 * w + i) <==> w < |ws| && WordBit(ws[w], i)
  {
    Split(w, i);
  }

  lemma Split(w: int, i: int)
    requires 0 <= w && 0 <= i < 64
    ensures (64 * w + i) / 64 == w && (64 * w + i) % 64 == i
  {
  }

  // The int-position facts about a whole word.

  lemma WordKeepAbove(w: bv64, m: bv7, num: bv64)
    requires m <= 64 && num == w & !LowMask(m)
    ensures Pos(m) <= 64
    ensures forall i :: Pos(m) <= i < 64 ==> (WordBit(num, i) <==> WordBit(w, i))
    ensures forall i :: 0 <= i < Pos(m) ==> !WordBit(num, i)
  {
    PosRange(m);
    forall i | Pos(m) <= i < 64
      ensures WordBit(num, i) <==> WordBit(w, i)
    {
      KeepAboveInt(w, m, i);
    }
    forall i | 0 <= i < Pos(m)
      ensures !WordBit(num, i)
    {
      ClearBelowInt(w, m, i);
    }
  }

  lemma WordLowest(n: bv64, d: bv7)
    requires d < 64 && IsLowestBit(n, 1 << d)
    ensures Pos(d) < 64 && WordBit(n, Pos(d))
    ensures forall i :: 0 <= i < Pos(d) ==> !WordBit(n, i)
  {
    LowestInt(n, d, 0);
    forall i | 0 <= i < Pos(d)
      ensures !WordBit(n, i)
    {
      LowestInt(n, d, i);
    }
  }

  lemma WordSetOne(w: bv64, b: bv7, nw: bv64)
    requires b < 64 && nw == w | (1 << b)
    ensures Pos(b) < 64
    ensures forall i :: WordBit(nw, i) <==> WordBit(w, i) || i == Pos(b)
  {
    PosRange(b);
    forall i
      ensures WordBit(nw, i) <==> WordBit(w, i) || i == Pos(b)
    {
      SetOneInt(w, b, i);
    }
  }

  lemma {:induction false} WordZero()
    ensures forall i :: !WordBit(0, i)
  {
    forall i
      ensures !WordBit(0, i)
    {
      ZeroInt(i);
    }
  }

  // What one round of getNext's loop learns from word w of `ws`: `num` is
  // the word with the bits below `lo` masked off; ctz of it found nothing, or
  // found bit `at`.

  /** Nothing found: no index of word w from bit lo on is set. */
  lemma WordEmpty(ws: seq<bv64>, w: int, x: bv64, lo: int, num: bv64)
    requires 0 <= w < |ws| && x == ws[w] && 0 <= lo <= 64 && num == 0
    requires forall i :: lo <= i < 64 ==> (WordBit(num, i) <==> WordBit(x, i))
    ensures forall j :: 64 * w + lo <= j < 64 * w + 64 ==> !IsSet(ws, j)
  {
    WordZero();
    forall j | 64 * w + lo <= j < 64 * w + 64
      ensures !IsSet(ws, j)
    {
      At(ws, w, j - 64 * w);
    }
  }

  /** Found bit `at`: index 64 * w + at is set, and none of word w between bit lo and it. */
  lemma WordFound(ws: seq<bv64>, w: int, x: bv64, lo: int, num: bv64, at: int)
    requires 0 <= w < |ws| && x == ws[w] && 0 <= lo <= 64 && 0 <= at < 64
    requires forall i :: lo <= i < 64 ==> (WordBit(num, i) <==> WordBit(x, i))
    requires forall i :: 0 <= i < lo ==> !WordBit(num, i)
    requires WordBit(num, at) && forall i :: 0 <= i < at ==> !WordBit(num, i)
    ensures lo <= at && IsSet(ws, 64 * w + at)
    ensures forall j :: 64 * w + lo <= j < 64 * w + at ==> !IsSet(ws, j)
  {
    At(ws, w, at);
    forall j | 64 * w + lo <= j < 64 * w + at
      ensures !IsSet(ws, j)
    {
      At(ws, w, j - 64 * w);
    }
  }

  /** Appending zero words adds no index. */
  lemma GrowKeeps(ws: seq<bv64>, n: nat)
    ensures forall j :: IsSet(ws + seq(n, _ => 0), j) <==> IsSet(ws, j)
  {
    WordZero();
    var ws' := ws + seq(n, _ => 0);
    forall j | 0 <= j
      ensures IsSet(ws', j) <==> IsSet(ws, j)
    {
      if |ws| <= j / 64 < |ws'| {
        assert ws'[j / 64] == 0;
      }
    }
  }

  /** Replacing word iw by one with the same bits plus bit p sets index 64 * iw + p and no other. */
  lemma SetKeeps(ws: seq<bv64>, iw: int, w: bv64, nw: bv64, p: int)
    requires 0 <= iw < |ws| && w == ws[iw] && 0 <= p < 64
    requires forall i :: WordBit(nw, i) <==> WordBit(w, i) || i == p
    ensures forall j :: IsSet(ws[iw := nw], j) <==> IsSet(ws, j) || j == 64 * iw + p
  {
    Split(iw, p);
    forall j
      ensures IsSet(ws[iw := nw], j) <==> IsSet(ws, j) || j == 64 * iw + p
    {
      if 0 <= j && j / 64 == iw {
        assert j == 64 * iw + j % 64;
        assert j % 64 == p <==> j == 64 * iw + p;
      }
    }
  }

  /** set's update of word index / 64, at bit b of the index. */
  lemma SetBit(ws: seq<bv64>, index: int, w: bv64, word: bv64)
    requires 0 <= index && index / 64 < |ws| && w == ws[index / 64]
    requires forall i :: WordBit(word, i) <==> WordBit(w, i) || i == index % 64
    ensures forall j :: IsSet(ws[index / 64 := word], j) <==> IsSet(ws, j) || j == index
  {
    var iw, p := index / 64, index % 64;
    assert 64 * iw + p == index;
    SetKeeps(ws, iw, w, word, p);
    assert ws[iw := word] == ws[index / 64 := word];
    forall j
      ensures IsSet(ws[index / 64 := word], j) <==> IsSet(ws, j) || j == index
    {
      assert IsSet(ws[iw := word], j) <==> IsSet(ws, j) || j == 64 * iw + p;
    }
  }

  /** set's `word |= 1L << (index & 0x3F)`: the word gains bit index % 64 and keeps the others. */
  method WithBit(w: bv64, index: int) returns (word: bv64)
    requires 0 <= index
    ensures forall i :: WordBit(word, i) <==> WordBit(w, i) || i == index % 64
  {
    var b := (index % 64) as bv7;
    AsPos(index % 64);
    word := w | (1 << b);
    WordSetOne(w, b, word);
  }

  lemma AndNot(w: bv64, mask: bv64, k: bv7)
    requires k < 64
    ensures Bit(w & !mask, k) ==> Bit(w, k)
  {
    Masked(w, !mask, 1 << k);
  }

  /** A bit of `w & ~mask` is a bit of w. */
  lemma AndNotInt(w: bv64, mask: bv64, num: bv64, i: int)
    requires num == w & !mask
    ensures WordBit(num, i) ==> WordBit(w, i)
  {
    if 0 <= i < 64 {
      FromPosValue(i);
      var c := FromPos(i);
      Bridge(num, c);
      Bridge(w, c);
      AndNot(w, mask, c);
    }
  }

  /**
   * The state of getNext's loop at word `arrayIndex`: the bits below m of
   * that word are masked, and no index after `oldIndex` before bit m of it
   * is set.
   */
  ghost predicate Scanned(ws: seq<bv64>, oldIndex: int, arrayIndex: int, lo: int)
  {
    0 <= arrayIndex && 0 <= lo <= 64 && oldIndex < 64 * arrayIndex + lo &&
    forall j :: oldIndex < j < 64 * arrayIndex + lo ==> !IsSet(ws, j)
  }

  /** `r` is what getNext(oldIndex) promises: the smallest set index after oldIndex, or -1 when there is none. */
  ghost predicate IsNext(ws: seq<bv64>, oldIndex: int, r: int)
  {
    (r == -1 ==> forall j :: oldIndex < j ==> !IsSet(ws, j)) &&
    (r != -1 ==> oldIndex < r && IsSet(ws, r) && forall j :: oldIndex < j < r ==> !IsSet(ws, j))
  }

  /** Word w with its bits below lo cleared, as getNext's `num`. */
  ghost predicate ClearedBelow(num: bv64, w: bv64, lo: int)
  {
    (forall i :: lo <= i < 64 ==> (WordBit(num, i) <==> WordBit(w, i))) &&
    (forall i :: 0 <= i < lo ==> !WordBit(num, i))
  }

  /** `index` is the lowest bit of num, as ctz reports it. */
  ghost predicate LowestBit(num: bv64, index: int)
  {
    0 <= index < 64 && WordBit(num, index) && forall i :: 0 <= i < index ==> !WordBit(num, i)
  }

  lemma Masking(w: bv64, m: bv7, num: bv64)
    requires m <= 64 && num == w & !LowMask(m)
    ensures Pos(m) <= 64 && ClearedBelow(num, w, Pos(m))
  {
    WordKeepAbove(w, m, num);
  }

  /** ctz's answer as an int position. */
  lemma LowestAt(num: bv64, d: bv7, index: int)
    requires d < 64 && index == d as int && IsLowestBit(num, 1 << d)
    ensures LowestBit(num, index)
  {
    WordLowest(num, d);
    PosValue(d);
  }

  lemma ScanEmpty(ws: seq<bv64>, oldIndex: int, arrayIndex: int, lo: int, w: bv64, num: bv64)
    requires Scanned(ws, oldIndex, arrayIndex, lo) && arrayIndex < |ws| && w == ws[arrayIndex]
    requires ClearedBelow(num, w, lo) && num == 0
    ensures Scanned(ws, oldIndex, arrayIndex + 1, 0)
  {
    WordEmpty(ws, arrayIndex, w, lo, num);
  }

  lemma ScanFound(ws: seq<bv64>, oldIndex: int, arrayIndex: int, lo: int, w: bv64, num: bv64, index: int)
    requires Scanned(ws, oldIndex, arrayIndex, lo) && arrayIndex < |ws| && w == ws[arrayIndex]
    requires ClearedBelow(num, w, lo) && LowestBit(num, index)
    ensures IsNext(ws, oldIndex, index + arrayIndex * 64)
  {
    WordFound(ws, arrayIndex, w, lo, num, index);
  }

  /** A round of getNext's loop whose ctz found nothing: word arrayIndex holds no index after oldIndex. */
  lemma RoundEmpty(ws: seq<bv64>, oldIndex: int, arrayIndex: int, m: bv7, w: bv64, num: bv64)
    requires m <= 64 && Pos(m) <= 64 && Scanned(ws, oldIndex, arrayIndex, Pos(m))
    requires arrayIndex < |ws| && w == ws[arrayIndex]
    requires num == w & !LowMask(m) && num == 0
    ensures Scanned(ws, oldIndex, arrayIndex + 1, 0)
  {
    Masking(w, m, num);
    ScanEmpty(ws, oldIndex, arrayIndex, Pos(m), w, num);
  }

  /** A round of getNext's loop whose ctz found bit `index`: the index it yields is the next one. */
  lemma RoundFound(ws: seq<bv64>, oldIndex: int, arrayIndex: int, m: bv7, w: bv64, num: bv64, index: int)
    requires m <= 64 && Pos(m) <= 64 && Scanned(ws, oldIndex, arrayIndex, Pos(m))
    requires arrayIndex < |ws| && w == ws[arrayIndex]
    requires num == w & !LowMask(m) && LowestBit(num, index)
    ensures IsNext(ws, oldIndex, index + arrayIndex * 64)
  {
    Masking(w, m, num);
    ScanFound(ws, oldIndex, arrayIndex, Pos(m), w, num, index);
  }

  /** ctz, with its answer as an int bit position. */
  method LowestIndex(n: bv64) returns (index: int, n': bv64)
    ensures n == 0 <==> index == -1
    ensures n != 0 ==> LowestBit(n, index)
  {
    ghost var d;
    index, n', d := Ctz(n);
    if index != -1 {
      LowestAt(n, d, index);
    }
  }

  lemma RoundExit(ws: seq<bv64>, oldIndex: int, arrayIndex: int, lo: int)
    requires Scanned(ws, oldIndex, arrayIndex, lo) && arrayIndex >= |ws|
    ensures IsNext(ws, oldIndex, -1)
  {
  }

  /**
   * getNext's starting point: the word of oldIndex, with the bits up to
   * oldIndex masked, or word 0 unmasked when oldIndex is -1.
   */
  method FirstWord(ws: seq<bv64>, oldIndex: int) returns (arrayIndex: int, mask: bv64, ghost m: bv7)
    requires -1 <= oldIndex
    ensures m <= 64 && mask == LowMask(m) && Pos(m) <= 64
    ensures Scanned(ws, oldIndex, arrayIndex, Pos(m))
    ensures oldIndex == -1 ==> arrayIndex == 0 && m == 0
    ensures oldIndex != -1 ==> arrayIndex == oldIndex / 64 && Pos(m) == oldIndex % 64 + 1
  {
    arrayIndex := 0;
    mask := 0;
    m := 0;
    AllMasked(0);
    if oldIndex != -1 {
      arrayIndex := oldIndex / 64;
      var bit := (oldIndex % 64) as bv7;
      RoundStart(ws, oldIndex, bit);
      m := bit + 1;
      mask := (1 << (bit + 1)) - 1;
    }
  }

  /**
   * One round of getNext's loop: word arrayIndex with the bits below m
   * masked off goes to ctz; the index it finds is the next one, or else no
   * index of that word after oldIndex is set.
   */
  method ScanWord(ws: seq<bv64>, oldIndex: int, arrayIndex: int, ghost m: bv7, mask: bv64) returns (index: int)
    requires m <= 64 && mask == LowMask(m) && Pos(m) <= 64
    requires Scanned(ws, oldIndex, arrayIndex, Pos(m)) && arrayIndex < |ws|
    ensures index == -1 ==> Scanned(ws, oldIndex, arrayIndex + 1, 0)
    ensures index != -1 ==> IsNext(ws, oldIndex, index)
  {
    var w := ws[arrayIndex];
    var num := w & !mask;
    var rest;
    index, rest := LowestIndex(num);
    if index != -1 {
      RoundFound(ws, oldIndex, arrayIndex, m, w, num, index);
      index := index + arrayIndex * 64;
    } else {
      RoundEmpty(ws, oldIndex, arrayIndex, m, w, num);
    }
  }

  /** The mask getNext starts from. */
  lemma RoundStart(ws: seq<bv64>, oldIndex: int, bit: bv7)
    requires 0 <= oldIndex && bit == (oldIndex % 64) as bv7
    ensures bit < 64 && bit + 1 <= 64 && Scanned(ws, oldIndex, oldIndex / 64, Pos(bit + 1))
    ensures Pos(bit + 1) == oldIndex % 64 + 1
  {
    AsPos(oldIndex % 64);
    PosSucc(bit);
    PosRange(bit + 1);
  }

  /**
   * getNext's first mask as written: `(1L << ((oldIndex & 0x3F) + 1)) - 1`,
   * whose shift count is 64 for bit 63; a 64-bit shift instruction takes its
   * count mod 64, so that mask is `1 - 1`, which masks nothing.
   */
  method FirstMaskAsWritten(oldIndex: int) returns (mask: bv64)
    requires -1 <= oldIndex
    ensures oldIndex == -1 || oldIndex % 64 == 63 ==> mask == 0
  {
    mask := 0;
    if oldIndex != -1 {
      var bit := (oldIndex % 64) as bv7;
      mask := (1 << ((bit + 1) & 63)) - 1;
    }
  }

  /**
   * One round of getNext's loop as written: an index it finds lies in word
   * arrayIndex; the later rounds' mask -1L leaves nothing to find, and mask 0
   * finds the lowest bit of a nonzero word.
   */
  method ScanWordAsWritten(ws: seq<bv64>, arrayIndex: int, mask: bv64) returns (index: int)
    requires 0 <= arrayIndex < |ws|
    ensures index != -1 ==> IsSet(ws, index) && index / 64 == arrayIndex
    ensures mask == 0xFFFF_FFFF_FFFF_FFFF ==> index == -1
    ensures mask == 0 && ws[arrayIndex] != 0 ==> index != -1
  {
    var w := ws[arrayIndex];
    var num := w & !mask;
    AllMasked(w);
    var rest;
    index, rest := LowestIndex(num);
    if index != -1 {
      AndNotInt(w, mask, num, index);
      At(ws, arrayIndex, index);
      Split(arrayIndex, index);
      index := index + arrayIndex * 64;
    }
  }

  /**
   * IndexList: a growable bit set.  `size` is the index of the last word
   * (-1 while there is no array) and `words` the array's contents.
   */
  class IndexList {
    var size: int
    var words: seq<bv64>

    ghost predicate Valid()
      reads this
    {
      size == |words| - 1
    }

    /** IndexList(): no array, so no index is set. */
    constructor ()
      ensures Valid() && size == -1
      ensures forall j :: !IsSet(words, j)
    {
      size := -1;
      words := [];
    }

    /** IndexList(long): one word holding `indexes`, so exactly its bits are set. */
    constructor FromWord(indexes: bv64)
      ensures Valid() && size == 0
      ensures forall j :: IsSet(words, j) <==> 0 <= j < 64 && WordBit(indexes, j)
    {
      size := 0;
      words := [indexes];
    }

    /**
     * get: 1 when `index` is set, else 0; 0 for an index in a word past the
     * array.
     */
    function Get(index: int): (r: int)
      reads this
      requires Valid() && 0 <= index
      ensures r == 0 || r == 1
      ensures r == 1 <==> IsSet(words, index)
      ensures index / 64 > size ==> r == 0
    {
      var indexSize := index / 64;
      if indexSize <= size then
        var b := (index % 64) as bv7;
        AsPos(index % 64);
        GetBitInt(words[indexSize], b);
        ((words[indexSize] >> b) & 1) as int
      else
        0
    }

    /**
     * set: grows the array to reach the word of `index`, zero-filling the new
     * words, and sets its bit; every other index keeps its state.
     */
    method Set(index: int)
      requires Valid() && 0 <= index
      modifies this
      ensures Valid()
      ensures size == if index / 64 > old(size) then index / 64 else old(size)
      ensures forall j :: IsSet(words, j) <==> IsSet(old(words), j) || j == index
    {
      var indexSize := index / 64;
      if indexSize > size {
        GrowKeeps(words, indexSize - size);
        words := words + seq(indexSize - size, _ => 0);
        size := indexSize;
      }
      var w := words[indexSize];
      var word := WithBit(w, index);
      SetBit(words, index, w, word);
      words := words[indexSize := word];
    }

    /**
     * getNext as the program intends it: the smallest set index greater than
     * `oldIndex`, or -1 when there is none; getNext(-1) is the smallest set
     * index.  The first word is masked with `(1L << (bit + 1)) - 1`, which for
     * bit 63 is the all-ones mask (a shift by 64 gives 0 here); later words
     * are scanned whole.
     */
    method GetNext(oldIndex: int) returns (index: int)
      requires Valid() && -1 <= oldIndex
      ensures IsNext(words, oldIndex, index)
    {
      var arrayIndex, mask, m := FirstWord(words, oldIndex);
      index := -1;
      while arrayIndex <= size
        invariant m <= 64 && mask == LowMask(m) && Pos(m) <= 64
        invariant Scanned(words, oldIndex, arrayIndex, Pos(m))
        decreases size - arrayIndex
      {
        index := ScanWord(words, oldIndex, arrayIndex, m, mask);
        if index != -1 {
          return;
        }
        arrayIndex := arrayIndex + 1;
        mask := 0;
        m := 0;
        AllMasked(0);
      }
      RoundExit(words, oldIndex, arrayIndex, Pos(m));
    }

    /**
     * getNext as written.  Later words get the mask -1L, so `num` is 0 there
     * and only the word of oldIndex is ever searched; and for bit 63 the
     * first mask masks nothing, so the search can return oldIndex itself or
     * an index below it.
     */
    method GetNextAsWritten(oldIndex: int) returns (index: int)
      requires Valid() && -1 <= oldIndex
      ensures index != -1 ==> IsSet(words, index) && index / 64 == (if oldIndex == -1 then 0 else oldIndex / 64)
      ensures oldIndex != -1 && oldIndex % 64 == 63 && IsSet(words, oldIndex) ==> index != -1 && index <= oldIndex
    {
      var first := if oldIndex != -1 then oldIndex / 64 else 0;
      var arrayIndex := first;
      var mask := FirstMaskAsWritten(oldIndex);
      index := -1;
      while arrayIndex <= size
        invariant first <= arrayIndex && index == -1
        invariant arrayIndex > first ==> mask == 0xFFFF_FFFF_FFFF_FFFF
        invariant arrayIndex == first && (oldIndex == -1 || oldIndex % 64 == 63) ==> mask == 0
        invariant arrayIndex > first ==> !(oldIndex != -1 && oldIndex % 64 == 63 && IsSet(words, oldIndex))
        decreases size - arrayIndex
      {
        if arrayIndex == first && oldIndex != -1 && oldIndex % 64 == 63 && IsSet(words, oldIndex) {
          ZeroInt(63);
        }
        index := ScanWordAsWritten(words, arrayIndex, mask);
        if index != -1 {
          return;
        }
        arrayIndex := arrayIndex + 1;
        mask := 0xFFFF_FFFF_FFFF_FFFF;
      }
    }
  }

  /**
   * set(64) on a new list, then getNext(-1): the index 64 is set and is the
   * next one, but getNext as written searches word 0 only and answers -1.
   */
  method SkipsLaterWords() returns (asWritten: int, intended: int)
    ensures asWritten == -1 && intended == 64
  {
    var list := new IndexList();
    list.Set(64);
    assert forall j :: IsSet(list.words, j) <==> j == 64;
    asWritten := list.GetNextAsWritten(-1);
    intended := list.GetNext(-1);
    assert IsSet(list.words, 64);
    assert asWritten != -1 ==> asWritten == 64;
  }

  /**
   * set(63) on a new list, then getNext(63): no index after 63 is set, but
   * getNext as written finds 63 again.
   */
  method RereadsBit63() returns (asWritten: int, intended: int)
    ensures asWritten == 63 && intended == -1
  {
    var list := new IndexList();
    list.Set(63);
    asWritten := list.GetNextAsWritten(63);
    intended := list.GetNext(63);
  }
}