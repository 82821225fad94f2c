/** Bytes, 256-bit words and their big-endian encoding. */
module Words {

  type byte = x: int | 0 <= x < 0x100

  /** 2^64: machine words (`u64`, `usize`) lie below it. */
  const U64_SIZE: nat := 0x1_0000_0000_0000_0000
  const U64_MAX: nat := U64_SIZE - 1

  /** 2^256: the modulus of `U256` arithmetic. */
  const WORD_SIZE: nat :=
    0x1_0000_0000_0000_0000_0000_0000_0000_0000_0000_0000_0000_0000_0000_0000_0000_0000

  type Word = x: int | 0 <= x < WORD_SIZE

  const I64_MAX: int := 0x7fff_ffff_ffff_ffff
  const I64_MIN: int := -0x8000_0000_0000_0000

  predicate FitsI64(x: int) {
    I64_MIN <= x <= I64_MAX
  }

  /** A signed 64-bit field of a transaction. */
  type I64 = x: int | FitsI64(x)

  /** `i64::saturating_add`. */
  function SaturatingAdd64(a: int, b: int): int {
    if a + b > I64_MAX then I64_MAX else if a + b < I64_MIN then I64_MIN else a + b
  }

  datatype Option<+T> = None | Some(value: T)

  function Pow(base: nat, n: nat): nat {
    if n == 0 then 1 else base * Pow(base, n - 1)
  }

  lemma {:induction false} PowAdd(base: nat, m: nat, n: nat)
    ensures Pow(base, m + n) == Pow(base, m) * Pow(base, n)
  {
    if m != 0 {
      PowAdd(base, m - 1, n);
      assert base * (Pow(base, m - 1) * Pow(base, n)) == base * Pow(base, m - 1) * Pow(base, n);
    }
  }

  lemma {:induction false} PowOfPow(base: nat, m: nat, n: nat)
    ensures Pow(base, m * n) == Pow(Pow(base, m), n)
  {
    if n != 0 {
      PowOfPow(base, m, n - 1);
      PowAdd(base, m, m * (n - 1));
      assert m * n == m + m * (n - 1);
    }
  }

  lemma ThirtyTwoBytesMakeAWord()
    ensures Pow(0x100, 32) == WORD_SIZE
  {
    assert Pow(0x100, 8) == U64_SIZE by {
      assert Pow(0x100, 4) == 0x1_0000_0000;
      PowAdd(0x100, 4, 4);
    }
    PowAdd(0x100, 8, 8);
    PowAdd(0x100, 16, 16);
  }

  lemma TwoHundredFiftySixBitsMakeAWord()
    ensures Pow(2, 256) == WORD_SIZE
  {
    assert Pow(2, 8) == 0x100 by {
      assert Pow(2, 4) == 16;
      PowAdd(2, 4, 4);
    }
    PowOfPow(2, 8, 32);
    ThirtyTwoBytesMakeAWord();
  }

  // -- big-endian encoding ------------------------------------------------

  /** The number a big-endian byte string denotes. */
  function FromBigEndian(bs: seq<byte>): nat {
    if bs == [] then 0 else FromBigEndian(bs[..|bs| - 1]) * 0x100 + bs[|bs| - 1]
  }

  /** The `n` low-order bytes of `v`, most significant first. */
  function ToBigEndian(v: nat, n: nat): (bs: seq<byte>)
    ensures |bs| == n
  {
    if n == 0 then [] else ToBigEndian(v / 0x100, n - 1) + [v % 0x100]
  }

  lemma {:induction false} FromBigEndianBound(bs: seq<byte>)
    ensures FromBigEndian(bs) < Pow(0x100, |bs|)
  {
    if bs != [] {
      FromBigEndianBound(bs[..|bs| - 1]);
    }
  }

  /** Encoding in enough bytes loses nothing. */
  lemma {:induction false} BigEndianRoundTrip(v: nat, n: nat)
    requires v < Pow(0x100, n)
    ensures FromBigEndian(ToBigEndian(v, n)) == v
  {
    if n != 0 {
      BigEndianRoundTrip(v / 0x100, n - 1);
      var bs := ToBigEndian(v, n);
      assert bs[..n - 1] == ToBigEndian(v / 0x100, n - 1);
    }
  }

  lemma WordRoundTrip(v: Word)
    ensures FromBigEndian(ToBigEndian(v, 32)) == v
  {
    ThirtyTwoBytesMakeAWord();
    BigEndianRoundTrip(v, 32);
  }

  /** `U256::from_big_endian` of a 32-byte buffer. */
  function WordOfBytes(bs: seq<byte>): Word
    requires |bs| == 32
  {
    FromBigEndianBound(bs);
    ThirtyTwoBytesMakeAWord();
    FromBigEndian(bs)
  }

  /** `U256::low_u64`. */
  function Low64(w: Word): (r: nat)
    ensures r <= U64_MAX
  {
    w % U64_SIZE
  }

  /** Saturating `u64` addition. */
  function SaturatingAdd(a: nat, b: nat): (r: nat)
    ensures r <= a + b
  {
    if a + b <= U64_MAX then a + b else U64_MAX
  }

  // -- word arithmetic ----------------------------------------------------

  datatype BinaryOp = Add | Sub | Mul | Div | Mod | Exp | Lt | Gt | Eq | And | Or | Xor

  function OfBool(b: bool): Word {
    if b then 1 else 0
  }

  /** `a` to the power `b`, wrapping at 2^256. */
  function PowWrapping(a: Word, b: nat): Word {
    if b == 0 then 1 else (a * PowWrapping(a, b - 1)) % WORD_SIZE
  }

  function BitOf(op: BinaryOp, x: nat, y: nat): nat {
    if op == And then (if x == 1 && y == 1 then 1 else 0)
    else if op == Or then (if x == 1 || y == 1 then 1 else 0)
    else (if x != y then 1 else 0)
  }

  /** The bitwise operation `op` on the `bits` low-order bits of `a` and `b`. */
  function Bitwise(op: BinaryOp, a: nat, b: nat, bits: nat): (r: nat)
    ensures r < Pow(2, bits)
  {
    if bits == 0 then 0
    else 2 * Bitwise(op, a / 2, b / 2, bits - 1) + BitOf(op, a % 2, b % 2)
  }

  /** The word instructions that pop two operands and push one result. */
  function Binary(op: BinaryOp, a: Word, b: Word): Word {
    match op
    case Add => (a + b) % WORD_SIZE
    case Sub => (a - b) % WORD_SIZE
    case Mul => (a * b) % WORD_SIZE
    case Div => if b == 0 then 0 else Quotient(a, b)
    case Mod => if b == 0 then 0 else a % b
    case Exp => PowWrapping(a, b)
    case Lt => OfBool(a < b)
    case Gt => OfBool(a > b)
    case Eq => OfBool(a == b)
    case And => TwoHundredFiftySixBitsMakeAWord(); Bitwise(op, a, b, 256)
    case Or => TwoHundredFiftySixBitsMakeAWord(); Bitwise(op, a, b, 256)
    case Xor => TwoHundredFiftySixBitsMakeAWord(); Bitwise(op, a, b, 256)
  }

  lemma MultipleBound(b: nat, q: int)
    requires b != 0
    ensures q > 0 ==> b * q >= q
    ensures q < 0 ==> b * q <= q
  {
  }

  lemma QuotientBound(a: nat, b: nat)
    requires b != 0
    ensures 0 <= a / b <= a
  {
    MultipleBound(b, a / b);
  }

  function Quotient(a: Word, b: Word): Word
    requires b != 0
  {
    QuotientBound(a, b);
    a / b
  }
}
