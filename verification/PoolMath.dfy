/** Injecting and withdrawing liquidity undo each other as far as integer division allows. */
module PoolMath {
  import opened Words
  import opened Arithmetic
  import opened Tokens
  import opened TokenProofs

  /** After injecting `q` against `a`, the paired amount of withdrawing `q` is `a` again. */
  lemma WithdrawUndoesInject(x: nat, y: nat, q: nat)
    requires x > 0
    ensures var a := Proportional(y, q, x);
            a >= 0 && Proportional(y + a, q, x + q) == a
  {
    ProductPositive(y, q);
    var a := y * q / x;
    QuotientBounds(y * q, x);
    ProductPositive(a, q);
    assert (y + a) * q == y * q + a * q;
    assert (x + q) * a == x * a + a * q;
    QuotientIs((y + a) * q, x + q, a);
  }

  /** A withdrawal of less than one side takes less than the other side. */
  lemma PairedBelow(x: nat, y: nat, q: nat)
    requires 0 < q < x
    ensures 0 <= Proportional(y, q, x) <= y
  {
    ProductPositive(y, q);
    ProductPositive(y, x - q);
    MinusTimes(x, q, y);
    QuotientBounds(y * q, x);
    MultiplesApart(x, y * q / x, y);
  }

  /** After withdrawing `q` and `a`, injecting `q` back costs at least `a`. */
  lemma InjectAfterWithdraw(x: nat, y: nat, q: nat)
    requires 0 < q < x
    ensures var a := Proportional(y, q, x);
            && 0 <= a <= y
            && Proportional(y - a, q, x - q) >= a
            && (Proportional(y - a, q, x - q) == a <==> y * q % x < x - q)
  {
    PairedBelow(x, y, q);
    ProductPositive(y, q);
    var a := y * q / x;
    MinusTimes(y, a, q);
    MinusTimes(x, q, a);
    ProductPositive(y - a, q);
    QuotientWithRemainder((y - a) * q, x - q, a, y * q % x);
  }

  // -- on the ledger -------------------------------------------------------

  /** Debiting and then crediting the same two amounts gives the account back. */
  lemma PayBack(a: Account, t: Token, x: int, u: Token, y: int)
    requires t != u
    requires t.Trx? || t in a.assets
    requires u.Trx? || u in a.assets
    ensures Pay(Pay(a, t, x, u, y), t, -x, u, -y) == a
  {
    var b := Pay(a, t, x, u, y);
    assert TokenBalance(b, t) == TokenBalance(a, t) - x;
    assert TokenBalance(b, u) == TokenBalance(a, u) - y;
    assert Pay(b, t, -x, u, -y).assets == a.assets;
  }

  lemma ShiftBack(p: Pool, t: Token, x: int, y: int)
    ensures Shift(Shift(p, t, x, y), t, -x, -y) == p
  {
  }

  /** A pool whose two sides are positive. */
  predicate Positive(p: Pool) {
    p.first != p.second && p.firstBalance > 0 && p.secondBalance > 0
  }

  /**
   * Inject `quant` and withdraw the same `quant`: the withdrawal is accepted (up to the
   * precision check), executes, and restores the creator and the pool exactly.
   */
  lemma InjectThenWithdrawRestores(s: State, owner: Address, pool: int, t: Token, quant: I64)
    requires CanInject(s, owner, pool, t, quant) && Positive(s.pools[pool])
    requires FitsI64(TokenBalance(s.accounts[owner], t))
    requires FitsI64(TokenBalance(s.accounts[owner], OtherToken(s.pools[pool], t)))
    ensures var s1 := DoInject(s, owner, pool, t, quant);
            && s1.1 == Done
            && CanWithdrawPool(s1.0, owner, pool, t, quant, true)
            && DoWithdrawPool(s1.0, owner, pool, t, quant).1 == Done
            && DoWithdrawPool(s1.0, owner, pool, t, quant).0.accounts == s.accounts
            && DoWithdrawPool(s1.0, owner, pool, t, quant).0.pools == s.pools
  {
    var p, a := s.pools[pool], s.accounts[owner];
    var other, another := OtherToken(p, t), Paired(p, t, quant);
    var s1 := DoInject(s, owner, pool, t, quant).0;
    InjectPays(s, owner, pool, t, quant);
    var p1, a1 := s1.pools[pool], s1.accounts[owner];
    WithdrawUndoesInject(Side(p, t), OtherSide(p, t), quant);
    assert Side(p1, t) == Side(p, t) + quant && OtherSide(p1, t) == OtherSide(p, t) + another;
    assert Paired(p1, t, quant) == another;
    PayBack(a, t, quant, other, another);
    ShiftBack(p, t, quant, another);
    WithdrawCredits(s1, owner, pool, t, quant);
  }

  lemma InjectPays(s: State, owner: Address, pool: int, t: Token, quant: I64)
    requires CanInject(s, owner, pool, t, quant) && s.pools[pool].first != s.pools[pool].second
    requires FitsI64(TokenBalance(s.accounts[owner], t))
    requires FitsI64(TokenBalance(s.accounts[owner], OtherToken(s.pools[pool], t)))
    ensures var (s1, outcome) := DoInject(s, owner, pool, t, quant);
            var p, a := s.pools[pool], s.accounts[owner];
            var other, another := OtherToken(p, t), Paired(p, t, quant);
            && outcome == Done
            && s1.accounts == s.accounts[owner := Pay(a, t, quant, other, another)]
            && s1.pools == s.pools[pool := Shift(p, t, quant, another)]
            && (t.Trx? || t in a.assets) && (other.Trx? || other in a.assets)
            && TokenBalance(Pay(a, t, quant, other, another), t) == TokenBalance(a, t) - quant >= 0
            && TokenBalance(Pay(a, t, quant, other, another), other) == TokenBalance(a, other) - another >= 0
            && (other.Trx? || t.Trx? ==> Pay(a, t, quant, other, another).balance >= 0)
            && (!other.Trx? && !t.Trx? ==> Pay(a, t, quant, other, another).balance == a.balance)
  {
  }

  lemma WithdrawCredits(s: State, owner: Address, pool: int, t: Token, quant: I64)
    requires CanWithdrawPool(s, owner, pool, t, quant, true) && s.pools[pool].first != s.pools[pool].second
    requires FitsI64(TokenBalance(s.accounts[owner], t) + quant)
    requires var p := s.pools[pool];
             FitsI64(TokenBalance(s.accounts[owner], OtherToken(p, t)) + Paired(p, t, quant))
    ensures var (s1, outcome) := DoWithdrawPool(s, owner, pool, t, quant);
            var p, a := s.pools[pool], s.accounts[owner];
            var other, another := OtherToken(p, t), Paired(p, t, quant);
            && outcome == Done
            && s1.accounts == s.accounts[owner := Pay(a, t, 0 - quant, other, 0 - another)]
            && s1.pools == s.pools[pool := Shift(p, t, 0 - quant, 0 - another)]
  {
  }

  /**
   * Withdraw `quant` and inject the same `quant`: the creator has as much of that token as
   * before and never more of the other; it has exactly as much iff the division leaves a
   * remainder below what stays on the withdrawn side.
   */
  lemma WithdrawThenInjectNeverGains(s: State, owner: Address, pool: int, t: Token, quant: I64)
    requires CanWithdrawPool(s, owner, pool, t, quant, true) && Positive(s.pools[pool])
    requires quant < Side(s.pools[pool], t)
    requires DoWithdrawPool(s, owner, pool, t, quant).1 == Done
    requires CanInject(DoWithdrawPool(s, owner, pool, t, quant).0, owner, pool, t, quant)
    requires DoInject(DoWithdrawPool(s, owner, pool, t, quant).0, owner, pool, t, quant).1 == Done
    ensures var s2 := DoInject(DoWithdrawPool(s, owner, pool, t, quant).0, owner, pool, t, quant).0;
            var p := s.pools[pool];
            var other := OtherToken(p, t);
            && TokenBalance(s2.accounts[owner], t) == TokenBalance(s.accounts[owner], t)
            && TokenBalance(s2.accounts[owner], other) <= TokenBalance(s.accounts[owner], other)
            && (TokenBalance(s2.accounts[owner], other) == TokenBalance(s.accounts[owner], other)
                <==> OtherSide(p, t) * quant % Side(p, t) < Side(p, t) - quant)
  {
    var p := s.pools[pool];
    var s1 := DoWithdrawPool(s, owner, pool, t, quant).0;
    var s2 := DoInject(s1, owner, pool, t, quant).0;
    InjectAfterWithdraw(Side(p, t), OtherSide(p, t), quant);
    WithdrawMoves(s, s1, owner, pool, t, quant);
    InjectMoves(s1, s2, owner, pool, t, quant);
  }

  lemma WithdrawMoves(s: State, s1: State, owner: Address, pool: int, t: Token, quant: I64)
    requires CanWithdrawPool(s, owner, pool, t, quant, true) && s.pools[pool].first != s.pools[pool].second
    requires DoWithdrawPool(s, owner, pool, t, quant) == (s1, Done)
    ensures var p := s.pools[pool];
            var another := Paired(p, t, quant);
            && owner in s1.accounts && pool in s1.pools
            && s1.pools[pool] == Shift(p, t, 0 - quant, 0 - another)
            && TokenBalance(s1.accounts[owner], t) == TokenBalance(s.accounts[owner], t) + quant
            && TokenBalance(s1.accounts[owner], OtherToken(p, t)) ==
               TokenBalance(s.accounts[owner], OtherToken(p, t)) + another
  {
  }

  lemma InjectMoves(s: State, s1: State, owner: Address, pool: int, t: Token, quant: I64)
    requires CanInject(s, owner, pool, t, quant) && s.pools[pool].first != s.pools[pool].second
    requires DoInject(s, owner, pool, t, quant) == (s1, Done)
    ensures var p := s.pools[pool];
            var another := Paired(p, t, quant);
            && owner in s1.accounts && pool in s1.pools
            && s1.pools[pool] == Shift(p, t, quant, another)
            && TokenBalance(s1.accounts[owner], t) == TokenBalance(s.accounts[owner], t) - quant
            && TokenBalance(s1.accounts[owner], OtherToken(p, t)) ==
               TokenBalance(s.accounts[owner], OtherToken(p, t)) - another
  {
  }
}
