/** The Kademlia closeness of two node ids: the number of leading bits they share. */
module Closeness {
  import opened Words

  const NODE_ID_LEN: nat := 32
  const ID_BITS: nat := 256

  type Bytes = seq<bv8>
  type NodeId = s: Bytes | |s| == NODE_ID_LEN witness seq(NODE_ID_LEN, _ => 0)

  // -- bits -----------------------------------------------------------------

  function Mask(j: nat): bv8
    requires j < 8
  {
    if j == 0 then 0x80 else if j == 1 then 0x40 else if j == 2 then 0x20 else if j == 3 then 0x10
    else if j == 4 then 0x08 else if j == 5 then 0x04 else if j == 6 then 0x02 else 0x01
  }

  /** Bit `j` of a byte, the most significant first. */
  predicate Bit(x: bv8, j: nat)
    requires j < 8
  {
    x & Mask(j) != 0
  }

  predicate BitAt(s: Bytes, i: nat)
    requires i < 8 * |s|
  {
    Bit(s[i / 8], i % 8)
  }

  lemma XorMask(x: bv8, y: bv8, m: bv8)
    requires m != 0 && m & (m - 1) == 0
    ensures (x ^ y) & m != 0 <==> (x & m != 0) != (y & m != 0)
  {
    assert x & m == 0 || x & m == m;
    assert y & m == 0 || y & m == m;
  }

  lemma MaskIsOneBit(j: nat)
    requires j < 8
    ensures Mask(j) != 0 && Mask(j) & (Mask(j) - 1) == 0
  {
  }

  lemma XorBit(x: bv8, y: bv8, j: nat)
    requires j < 8
    ensures Bit(x ^ y, j) <==> Bit(x, j) != Bit(y, j)
  {
    MaskIsOneBit(j);
    XorMask(x, y, Mask(j));
  }

  lemma SameBitsSameByte(x: bv8, y: bv8)
    requires forall j | 0 <= j < 8 :: Bit(x, j) == Bit(y, j)
    ensures x == y
  {
    assert Bit(x, 0) == Bit(y, 0) && Bit(x, 1) == Bit(y, 1) && Bit(x, 2) == Bit(y, 2) && Bit(x, 3) == Bit(y, 3);
    assert Bit(x, 4) == Bit(y, 4) && Bit(x, 5) == Bit(y, 5) && Bit(x, 6) == Bit(y, 6) && Bit(x, 7) == Bit(y, 7);
  }

  /** `u8::leading_zeros`, counted from bit `j`. */
  function LeadingZeros(x: bv8, j: nat): (n: nat)
    requires j <= 8
    ensures j <= n <= 8
    ensures forall i | j <= i < n :: !Bit(x, i)
    ensures n < 8 ==> Bit(x, n)
    decreases 8 - j
  {
    if j < 8 && !Bit(x, j) then LeadingZeros(x, j + 1) else j
  }

  // -- the shared prefix ----------------------------------------------------

  /** The bits two strings have in common positions for. */
  function Width(a: Bytes, b: Bytes): nat {
    8 * if |a| <= |b| then |a| else |b|
  }

  /** Scanning bit by bit from bit `i`: the first bit that differs, or the width. */
  function AgreeFrom(a: Bytes, b: Bytes, i: nat): (n: nat)
    requires i <= Width(a, b)
    ensures i <= n <= Width(a, b)
    ensures forall j | i <= j < n :: BitAt(a, j) == BitAt(b, j)
    ensures n < Width(a, b) ==> BitAt(a, n) != BitAt(b, n)
    decreases Width(a, b) - i
  {
    if i < Width(a, b) && BitAt(a, i) == BitAt(b, i) then AgreeFrom(a, b, i + 1) else i
  }

  function SharedBits(a: Bytes, b: Bytes): nat {
    AgreeFrom(a, b, 0)
  }

  /** Agreement up to bit `n` is a shared prefix; a difference at bit `n` ends it. */
  lemma {:induction false} AgreeReaches(a: Bytes, b: Bytes, i: nat, n: nat)
    requires i <= n <= Width(a, b)
    requires forall j | i <= j < n :: BitAt(a, j) == BitAt(b, j)
    ensures AgreeFrom(a, b, i) >= n
    ensures n < Width(a, b) && BitAt(a, n) != BitAt(b, n) ==> AgreeFrom(a, b, i) == n
    decreases n - i
  {
    if i < n {
      AgreeReaches(a, b, i + 1, n);
    }
  }

  /** `common_prefix_bits`: the bytewise scan counts the bitwise shared prefix. */
  method CommonPrefixBits(a: Bytes, b: Bytes) returns (bits: nat)
    ensures bits == SharedBits(a, b)
  {
    bits := 0;
    var i := 0;
    while i < |a| && i < |b|
      invariant i <= |a| && i <= |b| && bits == 8 * i
      invariant forall j | 0 <= j < bits :: BitAt(a, j) == BitAt(b, j)
    {
      if a[i] == b[i] {
        bits := bits + 8;
      } else {
        var zeros := LeadingZeros(a[i] ^ b[i], 0);
        XorLeadingZeros(a[i], b[i], zeros);
        DifferingByte(a, b, i, zeros);
        bits := bits + zeros;
        return;
      }
      i := i + 1;
    }
    AgreeReaches(a, b, 0, bits);
  }

  lemma XorBits(x: bv8, y: bv8)
    ensures forall j | 0 <= j < 8 :: Bit(x ^ y, j) <==> Bit(x, j) != Bit(y, j)
  {
    forall j | 0 <= j < 8
      ensures Bit(x ^ y, j) <==> Bit(x, j) != Bit(y, j)
    {
      XorBit(x, y, j);
    }
  }

  /** Different bytes differ in some bit. */
  lemma SomeBitDiffers(x: bv8, y: bv8)
    requires x != y
    ensures exists j | 0 <= j < 8 :: Bit(x, j) != Bit(y, j)
  {
    if forall j | 0 <= j < 8 :: Bit(x, j) == Bit(y, j) {
      SameBitsSameByte(x, y);
    }
  }

  /** The leading zeros of the xor of two different bytes are the bits they share. */
  lemma XorLeadingZeros(x: bv8, y: bv8, zeros: nat)
    requires x != y && zeros == LeadingZeros(x ^ y, 0)
    ensures zeros < 8 && Bit(x, zeros) != Bit(y, zeros)
    ensures forall j | 0 <= j < zeros :: Bit(x, j) == Bit(y, j)
  {
    XorBits(x, y);
    SomeBitDiffers(x, y);
    FirstSetBit(x, y, x ^ y, zeros);
  }

  lemma FirstSetBit(x: bv8, y: bv8, z: bv8, zeros: nat)
    requires forall j | 0 <= j < 8 :: Bit(z, j) <==> Bit(x, j) != Bit(y, j)
    requires exists j | 0 <= j < 8 :: Bit(x, j) != Bit(y, j)
    requires zeros <= 8 && (forall i | 0 <= i < zeros :: !Bit(z, i)) && (zeros < 8 ==> Bit(z, zeros))
    ensures zeros < 8 && Bit(x, zeros) != Bit(y, zeros)
    ensures forall j | 0 <= j < zeros :: Bit(x, j) == Bit(y, j)
  {
  }

  lemma BitOfByte(s: Bytes, i: nat, j: nat)
    requires i < |s| && j < 8
    ensures BitAt(s, 8 * i + j) == Bit(s[i], j)
  {
    assert (8 * i + j) / 8 == i && (8 * i + j) % 8 == j;
  }

  lemma DifferingByte(a: Bytes, b: Bytes, i: nat, zeros: nat)
    requires i < |a| && i < |b|
    requires zeros < 8 && Bit(a[i], zeros) != Bit(b[i], zeros)
    requires forall j | 0 <= j < zeros :: Bit(a[i], j) == Bit(b[i], j)
    requires forall j | 0 <= j < 8 * i :: BitAt(a, j) == BitAt(b, j)
    ensures 8 * i + zeros == SharedBits(a, b)
  {
    forall j | 8 * i <= j < 8 * i + zeros
      ensures BitAt(a, j) == BitAt(b, j)
    {
      BitOfByte(a, i, j - 8 * i);
      BitOfByte(b, i, j - 8 * i);
    }
    BitOfByte(a, i, zeros);
    BitOfByte(b, i, zeros);
    AgreeReaches(a, b, 0, 8 * i + zeros);
  }

  // -- it is an ultrametric -------------------------------------------------

  /** Two ids share at least what each shares with a third, and no more when those shares differ. */
  lemma SharedBitsUltrametric(a: NodeId, b: NodeId, c: NodeId)
    ensures SharedBits(a, b) == SharedBits(b, c) ==> SharedBits(a, c) >= SharedBits(a, b)
    ensures SharedBits(a, b) < SharedBits(b, c) ==> SharedBits(a, c) == SharedBits(a, b)
    ensures SharedBits(b, c) < SharedBits(a, b) ==> SharedBits(a, c) == SharedBits(b, c)
  {
    var x, y := SharedBits(a, b), SharedBits(b, c);
    AgreeReaches(a, c, 0, if x <= y then x else y);
  }

  /** Only an id itself shares all its bits. */
  lemma AllBitsShared(a: NodeId, b: NodeId)
    ensures SharedBits(a, b) == ID_BITS <==> a == b
  {
    var n := SharedBits(a, b);
    if n == ID_BITS {
      forall i | 0 <= i < NODE_ID_LEN
        ensures a[i] == b[i]
      {
        forall j | 0 <= j < 8
          ensures Bit(a[i], j) == Bit(b[i], j)
        {
          assert BitAt(a, 8 * i + j) == BitAt(b, 8 * i + j);
        }
        SameBitsSameByte(a[i], b[i]);
      }
    }
  }

  // -- and it coarsens the xor distance -------------------------------------

  /** The xor of two ids as a number, from bit `i` down. */
  function XorFrom(a: NodeId, b: NodeId, i: nat): nat
    requires i <= ID_BITS
    decreases ID_BITS - i
  {
    if i == ID_BITS then 0
    else (if BitAt(a, i) != BitAt(b, i) then Pow(2, ID_BITS - 1 - i) else 0) + XorFrom(a, b, i + 1)
  }

  function XorDistance(a: NodeId, b: NodeId): nat {
    XorFrom(a, b, 0)
  }

  lemma {:induction false} XorFromBound(a: NodeId, b: NodeId, i: nat)
    requires i <= ID_BITS
    ensures XorFrom(a, b, i) < Pow(2, ID_BITS - i)
    decreases ID_BITS - i
  {
    if i < ID_BITS {
      XorFromBound(a, b, i + 1);
    }
  }

  lemma {:induction false} XorFromSkips(a: NodeId, b: NodeId, i: nat)
    requires i <= SharedBits(a, b)
    ensures XorDistance(a, b) == XorFrom(a, b, i)
  {
    if i > 0 {
      XorFromSkips(a, b, i - 1);
    }
  }

  lemma {:induction false} PowGrows(m: nat, n: nat)
    requires m <= n
    ensures Pow(2, m) <= Pow(2, n)
  {
    if m < n {
      PowGrows(m, n - 1);
    }
  }

  /** The shared prefix fixes the bit length of the xor distance. */
  lemma SharedBitsIsDistanceLength(a: NodeId, b: NodeId)
    ensures XorDistance(a, b) < Pow(2, ID_BITS - SharedBits(a, b))
    ensures a != b ==> SharedBits(a, b) < ID_BITS && Pow(2, ID_BITS - 1 - SharedBits(a, b)) <= XorDistance(a, b)
  {
    var n := SharedBits(a, b);
    AllBitsShared(a, b);
    XorFromSkips(a, b, n);
    XorFromBound(a, b, n);
  }

  predicate IsCloser(target: NodeId, a: NodeId, b: NodeId) {
    SharedBits(target, a) > SharedBits(target, b)
  }

  /**
   * `is_closer` never contradicts the xor order its documentation names, and it ties two ids
   * exactly when their distances to the target have the same bit length.
   */
  lemma CloserMeansSmallerDistance(target: NodeId, a: NodeId, b: NodeId)
    ensures IsCloser(target, a, b) ==> XorDistance(target, a) < XorDistance(target, b)
    ensures IsCloser(target, a, b) <==>
            exists n: nat :: XorDistance(target, a) < Pow(2, n) <= XorDistance(target, b)
  {
    var x, y := SharedBits(target, a), SharedBits(target, b);
    var d, e := XorDistance(target, a), XorDistance(target, b);
    SharedBitsIsDistanceLength(target, a);
    SharedBitsIsDistanceLength(target, b);
    AllBitsShared(target, a);
    AllBitsShared(target, b);
    LengthsCompare(d, e, x, y);
  }

  /** Numbers with `x` and `y` leading zeros are separated by a power of two exactly when `x > y`. */
  lemma LengthsCompare(d: nat, e: nat, x: nat, y: nat)
    requires x <= ID_BITS && y <= ID_BITS
    requires d < Pow(2, ID_BITS - x) && (x < ID_BITS ==> Pow(2, ID_BITS - 1 - x) <= d)
    requires e < Pow(2, ID_BITS - y) && (y < ID_BITS ==> Pow(2, ID_BITS - 1 - y) <= e)
    ensures x > y ==> d < e
    ensures x > y <==> exists n: nat :: d < Pow(2, n) <= e
  {
    if x > y {
      PowGrows(ID_BITS - x, ID_BITS - 1 - y);
      assert d < Pow(2, ID_BITS - 1 - y) <= e;
    } else {
      forall n: nat
        ensures !(d < Pow(2, n) <= e)
      {
        NoPowerBetween(d, e, x, y, n);
      }
    }
  }

  lemma NoPowerBetween(d: nat, e: nat, x: nat, y: nat, n: nat)
    requires x <= y <= ID_BITS
    requires x < ID_BITS ==> Pow(2, ID_BITS - 1 - x) <= d
    requires e < Pow(2, ID_BITS - y)
    ensures !(d < Pow(2, n) <= e)
  {
    if n >= ID_BITS - y {
      PowGrows(ID_BITS - y, n);
    } else {
      PowGrows(n, ID_BITS - 1 - x);
    }
  }
}
