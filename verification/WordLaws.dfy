/** What the word instructions compute, stated without their definitions. */
module WordLaws {
  import opened Words
  import opened Arithmetic

  lemma WrapOnce(x: int)
    requires 0 <= x + WORD_SIZE < 3 * WORD_SIZE
    ensures x % WORD_SIZE == if x < 0 then x + WORD_SIZE else if x < WORD_SIZE then x else x - WORD_SIZE
  {
  }

  /** Addition wraps, and subtraction takes it back. */
  lemma SubUndoesAdd(a: Word, b: Word)
    ensures Binary(Sub, Binary(Add, a, b), b) == a
    ensures Binary(Add, Binary(Sub, a, b), b) == a
  {
    WrapOnce(a + b);
    WrapOnce(a - b);
    WrapOnce((a + b) % WORD_SIZE - b);
    WrapOnce((a - b) % WORD_SIZE + b);
  }

  /** Quotient and remainder determine the dividend; division by zero gives zero. */
  lemma DivModReconstruct(a: Word, b: Word)
    ensures b == 0 ==> Binary(Div, a, b) == 0 && Binary(Mod, a, b) == 0
    ensures b != 0 ==> Binary(Div, a, b) * b + Binary(Mod, a, b) == a && Binary(Mod, a, b) < b
  {
  }

  /** A factor may be reduced before multiplying. */
  lemma ReduceFactor(a: nat, x: nat, n: nat)
    requires n > 0
    ensures (a * (x % n)) % n == (a * x) % n
  {
    var q, r := x / n, x % n;
    var k, t := a * r / n, a * r % n;
    calc {
      a * x;
      { assert x == n * q + r; }
      a * (n * q + r);
      n * (a * q) + a * r;
      { assert a * r == n * k + t; }
      n * (a * q) + n * k + t;
      n * (a * q + k) + t;
    }
    ProductPositive(a, q);
    RemainderOf(n, a * q + k, t);
  }

  /** EXP is the power modulo 2^256, though every step wraps. */
  lemma {:induction false} ExpIsPower(a: Word, b: nat)
    ensures PowWrapping(a, b) == Pow(a, b) % WORD_SIZE
  {
    if b != 0 {
      ExpIsPower(a, b - 1);
      ReduceFactor(a, Pow(a, b - 1), WORD_SIZE);
    }
  }

  /** Bit `j` of a number, the least significant first. */
  function BitNumber(a: nat, j: nat): nat {
    if j == 0 then a % 2 else BitNumber(a / 2, j - 1)
  }

  /** AND, OR and XOR act on every bit separately. */
  lemma {:induction false} BitwiseActsOnBits(op: BinaryOp, a: nat, b: nat, bits: nat, j: nat)
    requires j < bits
    ensures BitNumber(Bitwise(op, a, b, bits), j) == BitOf(op, BitNumber(a, j), BitNumber(b, j))
  {
    var r := Bitwise(op, a / 2, b / 2, bits - 1);
    assert Bitwise(op, a, b, bits) / 2 == r;
    if j > 0 {
      BitwiseActsOnBits(op, a / 2, b / 2, bits - 1, j - 1);
    }
  }
}
