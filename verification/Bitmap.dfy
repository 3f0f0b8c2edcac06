/**
 The byte bitmap (kernel/bitmap/bitmap.c, bitmap_helper.h): bit `k` is bit `k % 8` of byte
 `k / 8`. The bytes refine the set of the bits that are one.
 */
module Bits {

  /** `byte_bitmask`: `1 << j`. */
  function Mask(j: nat): bv8
    requires j < 8
  {
    if j == 0 then 1 else if j == 1 then 2 else if j == 2 then 4 else if j == 3 then 8
    else if j == 4 then 16 else if j == 5 then 32 else if j == 6 then 64 else 128
  }

  predicate Bit(b: bv8, j: nat)
    requires j < 8
  {
    b & Mask(j) != 0
  }

  lemma OrMask(b: bv8, j: nat, k: nat)
    requires j < 8 && k < 8
    ensures Bit(b | Mask(j), k) <==> k == j || Bit(b, k)
  {
  }

  lemma AndNotMask(b: bv8, j: nat, k: nat)
    requires j < 8 && k < 8
    ensures Bit(b & !Mask(j), k) <==> k != j && Bit(b, k)
  {
  }

  lemma XorMask(b: bv8, j: nat, k: nat)
    requires j < 8 && k < 8
    ensures Bit(b ^ Mask(j), k) <==> ((k == j) != Bit(b, k))
  {
  }

  lemma NotBit(b: bv8, k: nat)
    requires k < 8
    ensures Bit(!b, k) <==> !Bit(b, k)
  {
  }

  lemma ZeroBit(k: nat)
    requires k < 8
    ensures !Bit(0, k)
  {
  }

  function One(b: bv8, j: nat): (r: nat)
    requires j < 8
    ensures r <= 1
  {
    if Bit(b, j) then 1 else 0
  }

  /** How many bits of a byte are one. */
  function Ones(b: bv8): nat {
    One(b, 0) + One(b, 1) + One(b, 2) + One(b, 3) + One(b, 4) + One(b, 5) + One(b, 6) + One(b, 7)
  }

  /** `b & (b - 1)` clears exactly the lowest one. */
  lemma ClearLowest(b: bv8)
    requires b != 0
    ensures Ones(b & (b - 1)) == Ones(b) - 1
  {
  }

  lemma OnesZero(b: bv8)
    ensures b == 0 ==> Ones(b) == 0
  {
  }
}

module Bitmaps {
  import opened Bits

  const TWO64 := 0x1_0000_0000_0000_0000

  predicate At(bytes: seq<bv8>, k: nat)
    requires k < 8 * |bytes|
  {
    Bit(bytes[k / 8], k % 8)
  }

  /** The bits below `n` that are one. */
  ghost function Below(bytes: seq<bv8>, n: nat): set<nat>
    requires n <= 8 * |bytes|
  {
    set k: nat | k < n && At(bytes, k)
  }

  ghost function Members(bytes: seq<bv8>): set<nat> {
    Below(bytes, 8 * |bytes|)
  }

  function ByteCount(nbits: nat): nat {
    (nbits + 7) / 8
  }

  /** The bytes hold `nbits` bits and those past the last one are zero. */
  ghost predicate Padded(bytes: seq<bv8>, nbits: nat) {
    |bytes| == ByteCount(nbits) && forall k :: nbits <= k < 8 * |bytes| ==> !At(bytes, k)
  }

  // ---- one byte changed ------------------------------------------------------------

  lemma SameByte(k: nat, m: nat)
    ensures k == m <==> k / 8 == m / 8 && k % 8 == m % 8
  {
  }

  lemma SetMembers(bytes: seq<bv8>, m: nat)
    requires m < 8 * |bytes|
    ensures Members(bytes[m / 8 := bytes[m / 8] | Mask(m % 8)]) == Members(bytes) + {m}
  {
    hide Bit, Mask;
    var after := bytes[m / 8 := bytes[m / 8] | Mask(m % 8)];
    forall k: nat | k < 8 * |bytes|
      ensures At(after, k) <==> k == m || At(bytes, k)
    {
      SameByte(k, m);
      OrMask(bytes[m / 8], m % 8, k % 8);
    }
  }

  lemma ClearMembers(bytes: seq<bv8>, m: nat)
    requires m < 8 * |bytes|
    ensures Members(bytes[m / 8 := bytes[m / 8] & !Mask(m % 8)]) == Members(bytes) - {m}
  {
    hide Bit, Mask;
    var after := bytes[m / 8 := bytes[m / 8] & !Mask(m % 8)];
    forall k: nat | k < 8 * |bytes|
      ensures At(after, k) <==> k != m && At(bytes, k)
    {
      SameByte(k, m);
      AndNotMask(bytes[m / 8], m % 8, k % 8);
    }
  }

  lemma FlipMembers(bytes: seq<bv8>, m: nat)
    requires m < 8 * |bytes|
    ensures Members(bytes[m / 8 := bytes[m / 8] ^ Mask(m % 8)]) ==
            if m in Members(bytes) then Members(bytes) - {m} else Members(bytes) + {m}
  {
    hide Bit, Mask;
    var after := bytes[m / 8 := bytes[m / 8] ^ Mask(m % 8)];
    forall k: nat | k < 8 * |bytes|
      ensures At(after, k) <==> ((k == m) != At(bytes, k))
    {
      SameByte(k, m);
      XorMask(bytes[m / 8], m % 8, k % 8);
    }
  }

  lemma PaddedMembers(bytes: seq<bv8>, nbits: nat)
    requires |bytes| == ByteCount(nbits)
    ensures Padded(bytes, nbits) <==> forall k :: k in Members(bytes) ==> k < nbits
  {
    hide Bit, Mask;
    if forall k :: k in Members(bytes) ==> k < nbits {
      forall k | nbits <= k < 8 * |bytes|
        ensures !At(bytes, k)
      {
        assert k !in Members(bytes);
      }
    }
  }

  // ---- counting --------------------------------------------------------------------

  lemma BelowStep(bytes: seq<bv8>, i: nat, j: nat)
    requires i < |bytes| && j < 8
    ensures |Below(bytes, 8 * i + j + 1)| == |Below(bytes, 8 * i + j)| + One(bytes[i], j)
  {
    hide Bit, Mask;
    var k := 8 * i + j;
    assert k / 8 == i && k % 8 == j;
    if At(bytes, k) {
      assert Below(bytes, k + 1) == Below(bytes, k) + {k};
    } else {
      assert Below(bytes, k + 1) == Below(bytes, k);
    }
  }

  lemma BelowByte(bytes: seq<bv8>, i: nat)
    requires i < |bytes|
    ensures |Below(bytes, 8 * i + 8)| == |Below(bytes, 8 * i)| + Ones(bytes[i])
  {
    hide Below, One;
    BelowStep(bytes, i, 0);
    BelowStep(bytes, i, 1);
    BelowStep(bytes, i, 2);
    BelowStep(bytes, i, 3);
    BelowStep(bytes, i, 4);
    BelowStep(bytes, i, 5);
    BelowStep(bytes, i, 6);
    BelowStep(bytes, i, 7);
  }

  predicate Between(lo: nat, k: nat, hi: nat) {
    lo <= k < hi
  }

  ghost function Range(lo: nat, hi: nat): set<nat> {
    set k: nat | k < hi && Between(lo, k, hi)
  }

  lemma {:induction false} RangeCard(n: nat)
    ensures |Range(0, n)| == n
  {
    if n > 0 {
      RangeCard(n - 1);
      assert Range(0, n) == Range(0, n - 1) + {n - 1};
    } else {
      assert Range(0, n) == {};
    }
  }

  /** A set of numbers below `n` has `n` of them exactly when it leaves none out. */
  lemma FullCard(s: set<nat>, n: nat)
    requires s <= Range(0, n)
    ensures |s| <= n
    ensures |s| == n <==> forall k: nat | k < n :: k in s
  {
    RangeCard(n);
    Bounded(s, Range(0, n));
    if |s| == n {
      forall k: nat | k < n
        ensures k in s
      {
        if k !in s {
          Bounded(s + {k}, Range(0, n));
        }
      }
    }
    if forall k: nat | k < n :: k in s {
      assert s == Range(0, n);
    }
  }

  lemma {:induction false} Bounded(a: set<nat>, b: set<nat>)
    requires a <= b
    ensures |a| <= |b|
  {
    assert b == a + (b - a);
  }

  // ---- the bitmap ------------------------------------------------------------------

  class Bitmap {
    var bits: array<bv8>
    const nbits: nat

    ghost predicate Valid()
      reads this, bits
    {
      Padded(bits[..], nbits)
    }

    ghost function Set(): set<nat>
      reads this, bits
    {
      Members(bits[..])
    }

    /** `bitmap_init`. */
    constructor (buffer: array<bv8>, nbits: nat)
      requires nbits > 0 && buffer.Length == ByteCount(nbits)
      modifies buffer
      ensures Valid() && Set() == {} && this.nbits == nbits && bits == buffer
    {
      bits := buffer;
      this.nbits := nbits;
      new;
      var i := 0;
      while i < buffer.Length
        invariant 0 <= i <= buffer.Length && bits == buffer
        invariant forall j :: 0 <= j < i ==> buffer[j] == 0
      {
        buffer[i] := 0;
        i := i + 1;
      }
      forall k | 0 <= k < 8 * buffer.Length
        ensures !At(bits[..], k)
      {
        ZeroBit(k % 8);
      }
    }

    /** `bitmap_test`. */
    method Test(bit: nat) returns (r: bool)
      requires Valid() && bit < nbits
      ensures r <==> bit in Set()
    {
      r := bits[bit / 8] & Mask(bit % 8) != 0;
      assert r <==> At(bits[..], bit);
    }

    /** `bitmap_set`. */
    method SetBit(bit: nat)
      requires Valid() && bit < nbits
      modifies bits
      ensures Valid() && Set() == old(Set()) + {bit}
    {
      hide Mask;
      ghost var before := bits[..];
      bits[bit / 8] := bits[bit / 8] | Mask(bit % 8);
      assert bits[..] == before[bit / 8 := before[bit / 8] | Mask(bit % 8)];
      SetMembers(before, bit);
      Repadded(before, bits[..], nbits);
    }

    /** `bitmap_clear`. */
    method ClearBit(bit: nat)
      requires Valid() && bit < nbits
      modifies bits
      ensures Valid() && Set() == old(Set()) - {bit}
    {
      hide Mask;
      ghost var before := bits[..];
      bits[bit / 8] := bits[bit / 8] & !Mask(bit % 8);
      assert bits[..] == before[bit / 8 := before[bit / 8] & !Mask(bit % 8)];
      ClearMembers(before, bit);
      Repadded(before, bits[..], nbits);
    }

    /** `bitmap_flip`. */
    method FlipBit(bit: nat)
      requires Valid() && bit < nbits
      modifies bits
      ensures Valid()
      ensures Set() == if bit in old(Set()) then old(Set()) - {bit} else old(Set()) + {bit}
    {
      hide Mask;
      ghost var before := bits[..];
      bits[bit / 8] := bits[bit / 8] ^ Mask(bit % 8);
      assert bits[..] == before[bit / 8 := before[bit / 8] ^ Mask(bit % 8)];
      FlipMembers(before, bit);
      Repadded(before, bits[..], nbits);
    }

    /** `bitmap_set_range`: `start + count` is computed in 64 bits. */
    method SetRange(start: nat, count: nat)
      requires Valid() && start < TWO64 && count < TWO64
      modifies bits
      ensures Valid() && Set() == old(Set()) + Range(start, RangeEnd(start, count, nbits))
    {
      var end := RangeEnd(start, count, nbits);
      var i := start;
      while i < end
        invariant start <= i && (start <= end ==> i <= end) && (start > end ==> i == start)
        invariant Valid() && Set() == old(Set()) + Range(start, i)
      {
        SetBit(i);
        assert Range(start, i + 1) == Range(start, i) + {i};
        i := i + 1;
      }
      assert Range(start, end) == Range(start, i);
    }

    /** `bitmap_clear_range`. */
    method ClearRange(start: nat, count: nat)
      requires Valid() && start < TWO64 && count < TWO64
      modifies bits
      ensures Valid() && Set() == old(Set()) - Range(start, RangeEnd(start, count, nbits))
    {
      var end := RangeEnd(start, count, nbits);
      var i := start;
      while i < end
        invariant start <= i && (start <= end ==> i <= end) && (start > end ==> i == start)
        invariant Valid() && Set() == old(Set()) - Range(start, i)
      {
        ClearBit(i);
        assert Range(start, i + 1) == Range(start, i) + {i};
        i := i + 1;
      }
      assert Range(start, end) == Range(start, i);
    }

    /** `bitmap_find_next_zero`: the least zero bit from `start`, or -1 when there is none. */
    method FindNextZero(start: nat) returns (r: int)
      requires Valid()
      ensures r == -1 || (start <= r < nbits && r !in Set())
      ensures forall k: nat :: start <= k < (if r == -1 then nbits else r) ==> k in Set()
    {
      var i := start;
      while i < nbits
        invariant start <= i
        invariant forall k: nat :: start <= k < i && k < nbits ==> k in Set()
      {
        var one := Test(i);
        if !one {
          return i;
        }
        i := i + 1;
      }
      return -1;
    }

    /** `bitmap_find_next_set`. */
    method FindNextSet(start: nat) returns (r: int)
      requires Valid()
      ensures r == -1 || (start <= r < nbits && r in Set())
      ensures forall k: nat :: start <= k < (if r == -1 then nbits else r) ==> k !in Set()
    {
      var i := start;
      while i < nbits
        invariant start <= i
        invariant forall k: nat :: start <= k < i && k < nbits ==> k !in Set()
      {
        var one := Test(i);
        if one {
          return i;
        }
        i := i + 1;
      }
      return -1;
    }

    /** `bitmap_weight`: every one in every byte, padding included. */
    method Weight() returns (count: nat)
      ensures count == |Set()|
    {
      hide Ones;
      count := 0;
      var i := 0;
      assert Below(bits[..], 0) == {};
      while i < bits.Length
        invariant 0 <= i <= bits.Length
        invariant count == |Below(bits[..], 8 * i)|
      {
        var byte := bits[i];
        while byte != 0
          invariant count + Ones(byte) == |Below(bits[..], 8 * i)| + Ones(bits[i])
          decreases Ones(byte)
        {
          ClearLowest(byte);
          byte := byte & (byte - 1);
          count := count + 1;
        }
        OnesZero(byte);
        BelowByte(bits[..], i);
        i := i + 1;
      }
    }

    /** `bitmap_full`. */
    method Full() returns (r: bool)
      requires Valid()
      ensures r <==> forall k: nat | k < nbits :: k in Set()
    {
      var w := Weight();
      PaddedMembers(bits[..], nbits);
      FullCard(Set(), nbits);
      r := w == nbits;
    }

    /** `bitmap_empty`. */
    method Empty() returns (r: bool)
      ensures r <==> Set() == {}
    {
      var w := Weight();
      r := w == 0;
    }

    /** `bitmap_complement` of a bitmap of the same size, byte by byte; the two may share their buffer. */
    method Complement(src: Bitmap)
      requires src.Valid() && src.nbits == nbits && bits.Length == ByteCount(nbits)
      modifies bits
      ensures Set() == Range(0, 8 * bits.Length) - old(src.Set())
    {
      ghost var before := src.bits[..];
      var i := 0;
      while i < bits.Length
        invariant 0 <= i <= bits.Length
        invariant forall j :: 0 <= j < i ==> bits[j] == !before[j]
        invariant forall j :: i <= j < src.bits.Length ==> src.bits[j] == before[j]
      {
        bits[i] := !src.bits[i];
        i := i + 1;
      }
      forall k: nat | k < 8 * bits.Length
        ensures At(bits[..], k) <==> !At(before, k)
      {
        NotBit(before[k / 8], k % 8);
      }
    }
  }

  function RangeEnd(start: nat, count: nat, nbits: nat): nat {
    var end := (start + count) % TWO64;
    if end < nbits then end else nbits
  }

  /** Changing only bits below `nbits` keeps the padding zero. */
  lemma Repadded(before: seq<bv8>, after: seq<bv8>, nbits: nat)
    requires Padded(before, nbits) && |after| == |before|
    requires forall k :: k in Members(after) ==> k in Members(before) || k < nbits
    ensures Padded(after, nbits)
  {
    hide Members;
    PaddedMembers(before, nbits);
    PaddedMembers(after, nbits);
  }

  /** The complement of a bitmap keeps its padding zero, and so its weight right, only at whole bytes. */
  lemma ComplementPaddedIff(src: seq<bv8>, dst: seq<bv8>, nbits: nat)
    requires Padded(src, nbits) && |dst| == |src|
    requires Members(dst) == Range(0, 8 * |dst|) - Members(src)
    ensures Padded(dst, nbits) <==> nbits % 8 == 0
    ensures |Members(dst)| == nbits - |Members(src)| <==> nbits % 8 == 0
  {
    hide Members;
    var all := Range(0, 8 * |dst|);
    PaddedMembers(src, nbits);
    PaddedMembers(dst, nbits);
    RangeCard(8 * |dst|);
    assert Members(src) <= all by { MembersBelow(src); }
    assert |Members(dst)| == 8 * |dst| - |Members(src)|;
    if nbits % 8 != 0 {
      assert nbits !in Members(src) && nbits < 8 * |dst|;
      assert nbits in Members(dst);
    } else {
      MembersBelow(dst);
    }
  }

  lemma MembersBelow(bytes: seq<bv8>)
    ensures Members(bytes) <= Range(0, 8 * |bytes|)
  {
  }
}
