/** Energy prices, the energy meter, and byte-addressed memory with its quadratic price. */
module Energy {
  import opened Words

  const SLOAD: nat := 50
  const SET_SSTORE: nat := 20_000
  const CLEAR_SSTORE: nat := 5_000
  const RESET_SSTORE: nat := 5_000
  const MEMORY_WORD: nat := 3
  const NEW_ACCT_CALL: nat := 25_000
  const SUICIDE: nat := 0
  const VOTE_WITNESS: nat := 30_000

  function SstoreCost(currentIsZero: bool, newIsZero: bool): (c: nat)
    ensures c >= 1
  {
    if currentIsZero && !newIsZero then SET_SSTORE
    else if !currentIsZero && newIsZero then CLEAR_SSTORE
    else RESET_SSTORE
  }

  function SuicideCost(beneficiaryExists: bool): nat {
    SUICIDE + if beneficiaryExists then 0 else NEW_ACCT_CALL
  }

  // -- meter --------------------------------------------------------------

  /** `EnergyMeter::charge`: the new amount used, or None when it would pass the limit. */
  function Charge(used: nat, limit: nat, amount: nat): Option<nat> {
    if used + amount <= limit then Some(used + amount) else None
  }

  // -- memory -------------------------------------------------------------

  function WordsFor(bytes: nat): nat {
    (bytes + 31) / 32
  }

  /** Total price of a memory of `w` words. */
  function MemoryPrice(w: nat): nat {
    MEMORY_WORD * w + w * w / 512
  }

  lemma MemoryPriceMonotone(v: nat, w: nat)
    requires v <= w
    ensures MemoryPrice(v) <= MemoryPrice(w)
  {
    assert v * v <= w * w;
  }

  function MemoryExpansionCost(current: nat, new_: nat): nat {
    if new_ <= current then 0
    else
      MemoryPriceMonotone(current, new_);
      MemoryPrice(new_) - MemoryPrice(current)
  }

  /** Memory after `expand_to(end)`: whole words, zero filled. */
  function Expanded(mem: seq<byte>, end: nat): (r: seq<byte>)
    ensures |mem| <= |r| && r[..|mem|] == mem
    ensures end <= |r|
    ensures |mem| % 32 == 0 ==> |r| % 32 == 0
  {
    if end <= |mem| then mem
    else mem + seq(WordsFor(end) * 32 - |mem|, _ => 0)
  }

  /** The price `expand_to(end)` reports. */
  function ExpansionCost(mem: seq<byte>, end: nat): nat {
    if end <= |mem| then 0 else MemoryExpansionCost(WordsFor(|mem|), WordsFor(end))
  }

  /** Memory is whole words and everything in it has been paid for. */
  predicate PaidFor(mem: seq<byte>, used: nat) {
    |mem| % 32 == 0 && MemoryPrice(|mem| / 32) <= used
  }

  /** Charging the reported price keeps the memory paid for. */
  lemma ExpansionIsPaidFor(mem: seq<byte>, end: nat, used: nat)
    requires PaidFor(mem, used)
    ensures PaidFor(Expanded(mem, end), used + ExpansionCost(mem, end))
  {
    if end > |mem| {
      assert WordsFor(|mem|) == |mem| / 32;
      assert |Expanded(mem, end)| / 32 == WordsFor(end);
    }
  }

  /** 2^59 words cost more than any `u64` limit can pay. */
  lemma HugeMemoryIsUnaffordable(w: nat)
    requires w >= 0x800_0000_0000_0000
    ensures MemoryPrice(w) > U64_MAX
  {
    MemoryPriceMonotone(0x800_0000_0000_0000, w);
  }

  /**
   * An access of `len` bytes at `off` whose (saturated) extent was paid for at the unbounded
   * price lies inside memory.
   */
  lemma PaidAccessIsInRange(mem: seq<byte>, off: nat, len: nat, used: nat, limit: nat)
    requires PaidFor(mem, used)
    requires limit <= U64_MAX
    requires used + ExpansionCost(mem, SaturatingAdd(off, len)) <= limit
    ensures off + len <= |Expanded(mem, SaturatingAdd(off, len))|
  {
    var end := SaturatingAdd(off, len);
    if off + len > U64_MAX {
      ExpansionIsPaidFor(mem, end, used);
      var r := Expanded(mem, end);
      assert |r| >= U64_MAX && |r| % 32 == 0;
      HugeMemoryIsUnaffordable(|r| / 32);
    }
  }

  // -- where 64-bit prices are the unbounded ones ----------------------------

  /** The word count of `expand_to` in wrapping 64-bit arithmetic. */
  function Words64(end: nat): nat {
    (end + 31) % U64_SIZE / 32
  }

  /** The total price of `w` words in wrapping 64-bit arithmetic. */
  function Price64(w: nat): nat {
    (MEMORY_WORD * w % U64_SIZE + w * w % U64_SIZE / 512) % U64_SIZE
  }

  /** The 64-bit word count is right exactly below the last 31 extents; there it is zero. */
  lemma Words64IsExactIff(end: nat)
    requires end <= U64_MAX
    ensures Words64(end) == WordsFor(end) <==> end + 31 <= U64_MAX
    ensures end + 31 > U64_MAX ==> Words64(end) == 0
  {
  }

  /** The 64-bit price is right exactly as long as the square fits. */
  lemma Price64IsExactIff(w: nat)
    requires w <= U64_MAX
    ensures Price64(w) == MemoryPrice(w) <==> w * w <= U64_MAX
  {
    if w > 0xffff_ffff {
      SquareGrows(0x1_0000_0000, w);
    }
    Price64Below(w, w * w);
  }

  lemma SquareGrows(v: nat, w: nat)
    requires v <= w
    ensures v * v <= w * w
  {
    assert v * v <= v * w;
    assert v * w <= w * w;
  }

  lemma Price64Below(w: nat, square: nat)
    requires w <= U64_MAX && (square <= U64_MAX ==> w <= 0xffff_ffff)
    ensures var price := (MEMORY_WORD * w % U64_SIZE + square % U64_SIZE / 512) % U64_SIZE;
            price == MEMORY_WORD * w + square / 512 <==> square <= U64_MAX
  {
  }

  lemma SquareFits(w: nat)
    requires w <= 0xffff_ffff
    ensures w * w <= U64_MAX
  {
    SquareGrows(w, 0xffff_ffff);
  }

  /** `Vec::resize`: cut, or fill with zeros. */
  function Resized(mem: seq<byte>, n: nat): seq<byte> {
    if n <= |mem| then mem[..n] else mem + seq(n - |mem|, _ => 0)
  }

  /** Memory after `expand_to(end)`, with its word count in wrapping 64-bit arithmetic. */
  function Expanded64(mem: seq<byte>, end: nat): seq<byte> {
    if end <= |mem| then mem else Resized(mem, Words64(end) * 32)
  }

  /** `memory_expansion_cost` in wrapping 64-bit arithmetic. */
  function ExpansionCost64(current: nat, new_: nat): nat {
    if new_ <= current then 0 else (Price64(new_) - Price64(current)) % U64_SIZE
  }

  /** The price `expand_to(end)` reports, in wrapping 64-bit arithmetic. */
  function Cost64(mem: seq<byte>, end: nat): nat {
    if end <= |mem| then 0 else ExpansionCost64(WordsFor(|mem|), Words64(end))
  }

  /**
   * After the 64-bit expansion for it, an access lies inside memory exactly when it did before, or
   * its end is not among the last 31 of the 64-bit range.
   */
  lemma Access64InRangeIff(mem: seq<byte>, off: nat, len: nat)
    requires off <= U64_MAX && len <= U64_MAX && |mem| <= U64_MAX && |mem| % 32 == 0
    ensures off + len <= |Expanded64(mem, SaturatingAdd(off, len))| <==>
            off + len <= |mem| || off + len + 31 <= U64_MAX
  {
    var end := SaturatingAdd(off, len);
    if end > |mem| {
      Words64IsExactIff(end);
    }
  }

  /**
   * The saturated extent, which a 32-byte access at 2^64 - 1 asks for: the memory already there is
   * erased, nothing is charged, and the access is out of range.
   */
  lemma SaturatedAccessErases(mem: seq<byte>)
    requires |mem| < U64_MAX && |mem| % 32 == 0
    ensures var end := SaturatingAdd(U64_MAX, 32);
            && Expanded64(mem, end) == [] && Cost64(mem, end) == 0
            && U64_MAX + 32 > |Expanded64(mem, end)|
  {
    Words64IsExactIff(U64_MAX);
  }

  lemma Price64Large(w: nat)
    requires 0x1_0000_0000 <= w <= 0x800_0000_0000_0000
    ensures 3 * 0x1_0000_0000 <= Price64(w)
  {
    SquareQuotient(w * w);
    assert MEMORY_WORD * w % U64_SIZE == MEMORY_WORD * w;
  }

  lemma SquareQuotient(square: nat)
    ensures 0 <= square % U64_SIZE / 512 < 0x80_0000_0000_0000
  {
  }

  lemma SmallRemainder(x: int)
    requires 0 <= x < U64_SIZE
    ensures x % U64_SIZE == x
  {
  }

  /** Few words: the two prices are the same. */
  lemma FewWordsCost(v: nat, w: nat)
    requires v <= 0xffff_ffff && w <= 0xffff_ffff
    ensures ExpansionCost64(v, w) == MemoryExpansionCost(v, w)
  {
    if v < w {
      SquareFits(v);
      SquareFits(w);
      Price64IsExactIff(v);
      Price64IsExactIff(w);
      MemoryPriceMonotone(v, w);
      PriceFits(w);
      SmallRemainder(MemoryPrice(w) - MemoryPrice(v));
    }
  }

  /** Many words: neither is affordable. */
  lemma ManyWordsCost(v: nat, w: nat, used: nat, limit: nat)
    requires v <= 0xffff_ffff < w <= 0x800_0000_0000_0000
    requires MemoryPrice(v) <= used <= limit < 3 * 0x1_0000_0000
    ensures used + ExpansionCost64(v, w) > limit && used + MemoryExpansionCost(v, w) > limit
  {
    SquareFits(v);
    Price64IsExactIff(v);
    Price64Large(w);
    Price64Fits(w);
    SmallRemainder(Price64(w) - Price64(v));
    MemoryPriceAtLeast(w);
  }

  lemma MemoryPriceAtLeast(w: nat)
    ensures MemoryPrice(w) >= MEMORY_WORD * w
  {
  }

  /**
   * Below a limit of 3 * 2^32, for every extent but the last 31, the code can pay for a growth
   * exactly when the model can, and then pays the same for the same memory.
   */
  lemma Charges64Agree(mem: seq<byte>, end: nat, used: nat, limit: nat)
    requires PaidFor(mem, used) && used <= limit < 3 * 0x1_0000_0000 && end + 31 <= U64_MAX
    ensures used + Cost64(mem, end) <= limit <==> used + ExpansionCost(mem, end) <= limit
    ensures used + Cost64(mem, end) <= limit ==> Cost64(mem, end) == ExpansionCost(mem, end)
    ensures Expanded64(mem, end) == Expanded(mem, end)
  {
    if end > |mem| {
      var v, w := WordsFor(|mem|), WordsFor(end);
      assert v == |mem| / 32;
      PaidWordsAreFew(v, used, limit);
      Words64IsExactIff(end);
      if w <= 0xffff_ffff {
        FewWordsCost(v, w);
      } else {
        ManyWordsCost(v, w, used, limit);
      }
    }
  }

  lemma PaidWordsAreFew(v: nat, used: nat, limit: nat)
    requires MemoryPrice(v) <= used <= limit < 3 * 0x1_0000_0000
    ensures v <= 0xffff_ffff
  {
  }

  lemma PriceFits(w: nat)
    requires w <= 0xffff_ffff
    ensures MemoryPrice(w) < U64_SIZE
  {
    SquareFits(w);
  }

  lemma Price64Fits(w: nat)
    ensures 0 <= Price64(w) < U64_SIZE
  {
  }

  /** Bytes `off .. off+len` of `data`, reading 0 past its end. */
  function ReadPadded(data: seq<byte>, off: nat, len: nat): (r: seq<byte>)
    ensures |r| == len
    ensures forall i | 0 <= i < len :: r[i] == if off + i < |data| then data[off + i] else 0
  {
    seq(len, i requires 0 <= i < len => if off + i < |data| then data[off + i] else 0)
  }

  /** Memory with `bytes` written at `off`. */
  function Overwrite(mem: seq<byte>, off: nat, bytes: seq<byte>): (r: seq<byte>)
    requires off + |bytes| <= |mem|
    ensures |r| == |mem|
    ensures r[off..off + |bytes|] == bytes
    ensures r[..off] == mem[..off] && r[off + |bytes|..] == mem[off + |bytes|..]
  {
    mem[..off] + bytes + mem[off + |bytes|..]
  }

  function LoadWord(mem: seq<byte>, off: nat): Word {
    WordOfBytes(ReadPadded(mem, off, 32))
  }

  function StoreWord(mem: seq<byte>, off: nat, v: Word): (r: seq<byte>)
    requires off + 32 <= |mem|
    ensures |r| == |mem|
  {
    Overwrite(mem, off, ToBigEndian(v, 32))
  }

  /** MLOAD after MSTORE at the same offset gives the stored word back. */
  lemma LoadAfterStore(mem: seq<byte>, off: nat, v: Word)
    requires off + 32 <= |mem|
    ensures LoadWord(StoreWord(mem, off, v), off) == v
  {
    var r := StoreWord(mem, off, v);
    assert ReadPadded(r, off, 32) == r[off..off + 32];
    WordRoundTrip(v);
  }

  /** Stores elsewhere do not change what MLOAD reads. */
  lemma LoadAfterDisjointStore(mem: seq<byte>, off: nat, v: Word, at: nat)
    requires off + 32 <= |mem|
    requires at + 32 <= off || off + 32 <= at
    ensures LoadWord(StoreWord(mem, off, v), at) == LoadWord(mem, at)
  {
    var r := StoreWord(mem, off, v);
    forall i | 0 <= i < 32
      ensures ReadPadded(r, at, 32)[i] == ReadPadded(mem, at, 32)[i]
    {
      if at + 32 <= off {
        assert r[..off][at + i] == mem[..off][at + i];
      } else if at + i < |mem| {
        assert r[off + 32..][at + i - off - 32] == mem[off + 32..][at + i - off - 32];
      }
    }
    assert ReadPadded(r, at, 32) == ReadPadded(mem, at, 32);
  }

  /** Extent VOTEWITNESS reads: the larger of the two arrays, each with its size word. */
  function VoteWitnessExtent(witnessOff: nat, witnessLen: nat, amountOff: nat, amountLen: nat): nat {
    var w := ArrayExtent(witnessOff, witnessLen);
    var a := ArrayExtent(amountOff, amountLen);
    if w >= a then w else a
  }

  function ArrayExtent(off: nat, len: nat): nat {
    var size := if len * 32 <= U64_MAX then len * 32 else U64_MAX;
    SaturatingAdd(SaturatingAdd(off, size), 32)
  }

  // -- precompiles --------------------------------------------------------

  /** Price of the precompile at `low`, or None where no precompile lives. */
  function PrecompileEnergy(low: nat, inputLen: nat): Option<nat> {
    match low
    case 1 => Some(3000)
    case 2 => Some(60 + WordsFor(inputLen) * 12)
    case 3 => Some(600 + WordsFor(inputLen) * 120)
    case 4 => Some(15 + WordsFor(inputLen) * 3)
    case _ => None
  }
}
