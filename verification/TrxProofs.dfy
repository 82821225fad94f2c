/** TRX under the token transactions: never negative, never created, lost only to the burn counter. */
module TrxProofs {
  import opened Words
  import opened MapSum
  import opened Tokens
  import opened TokenProofs
  import opened Arithmetic

  // -- where TRX can be -----------------------------------------------------

  function Balances(accounts: map<Address, Account>): map<Address, int> {
    map a | a in accounts :: accounts[a].balance
  }

  function PoolTrx(p: Pool): int {
    (if p.first.Trx? then p.firstBalance else 0) + (if p.second.Trx? then p.secondBalance else 0)
  }

  function PoolsTrx(pools: map<int, Pool>): map<int, int> {
    map e | e in pools :: PoolTrx(pools[e])
  }

  ghost function TrxTotal(s: State): int {
    Sum(Balances(s.accounts)) + Sum(PoolsTrx(s.pools)) + s.burned
  }

  function BalanceAt(accounts: map<Address, Account>, a: Address): int {
    if a in accounts then accounts[a].balance else 0
  }

  lemma BalancesChange(before: map<Address, Account>, a: Address, acc: Account)
    ensures Sum(Balances(before[a := acc])) == Sum(Balances(before)) - BalanceAt(before, a) + acc.balance
  {
    var after := before[a := acc];
    assert Balances(before) - {a} == Balances(after) - {a};
    SumChange(Balances(before), Balances(after), a);
  }

  lemma PoolsTrxChange(before: map<int, Pool>, e: int, p: Pool)
    ensures Sum(PoolsTrx(before[e := p])) ==
            Sum(PoolsTrx(before)) - (if e in before then PoolTrx(before[e]) else 0) + PoolTrx(p)
  {
    var after := before[e := p];
    assert PoolsTrx(before) - {e} == PoolsTrx(after) - {e};
    SumChange(PoolsTrx(before), PoolsTrx(after), e);
  }

  // -- every step -----------------------------------------------------------

  /** One more fee fits in the burn counter. */
  predicate BurnFits(s: State) {
    FitsI64(s.burned) && FitsI64(s.burned + s.issueFee) && FitsI64(s.burned + s.accountFee)
    && FitsI64(s.burned + s.exchangeFee)
  }

  ghost predicate PoolsOk(s: State) {
    forall e | e in s.pools :: e <= s.latestExchange && s.pools[e].first != s.pools[e].second
  }

  lemma IssueTrx(s: State, t: State, q: IssueRequest)
    requires BurnFits(s) && CanIssue(s, q) && t == DoIssue(s, q).0
    ensures TrxTotal(t) == TrxTotal(s) + if MaturitiesFit(q) then 0 else s.issueFee
  {
    if MaturitiesFit(q) {
      BalancesChange(s.accounts, q.owner, IssuerAfter(s.accounts[q.owner], q, s.tokenIdNum + 1, s.issueFee));
    }
  }

  lemma TwoBalances(s: State, a: Address, accA: Account, b: Address, accB: Account)
    requires a != b
    ensures Sum(Balances(s.accounts[a := accA][b := accB])) ==
            Sum(Balances(s.accounts)) - BalanceAt(s.accounts, a) - BalanceAt(s.accounts, b)
            + accA.balance + accB.balance
  {
    BalancesChange(s.accounts, a, accA);
    BalancesChange(s.accounts[a := accA], b, accB);
  }

  function TransferFee(s: State, to: Address): nat {
    if to in s.accounts then 0 else s.accountFee
  }

  /** A validated transfer executes: the fee is burned and the token moves. */
  lemma TransferShapeExact(s: State, t: State, owner: Address, to: Address, token: Token, amount: I64)
    requires CanTransfer(s, owner, to, token, amount) && t == DoTransfer(s, owner, to, token, amount).0
    requires 0 <= s.accounts[owner].balance <= I64_MAX
    ensures DoTransfer(s, owner, to, token, amount).1 == Done
    ensures var o, d := s.accounts[owner], if to in s.accounts then s.accounts[to] else NewAccount;
            t == s.(
              accounts := s.accounts[
                owner := o.(assets := o.assets[token := AssetBalance(o, token) - amount],
                            balance := o.balance - TransferFee(s, to))][
                to := d.(assets := d.assets[token := AssetBalance(d, token) + amount])],
              burned := SaturatingAdd64(s.burned, TransferFee(s, to)))
  {
    var s1 := if to in s.accounts then s else PutAccount(s, to, NewAccount);
    assert s1.accounts[owner] == s.accounts[owner];
    MapSwap(s.accounts, to, NewAccount, owner, t.accounts[owner], t.accounts[to]);
  }

  lemma MapSwap<K, V>(m: map<K, V>, k: K, v: V, j: K, w: V, u: V)
    requires j != k
    ensures m[k := v][j := w][k := u] == m[j := w][k := u]
  {
  }

  lemma TransferTrx(s: State, t: State, owner: Address, to: Address, token: Token, amount: I64)
    requires BurnFits(s) && CanTransfer(s, owner, to, token, amount) && t == DoTransfer(s, owner, to, token, amount).0
    requires 0 <= s.accounts[owner].balance <= I64_MAX
    ensures TrxTotal(t) == TrxTotal(s)
  {
    TransferShapeExact(s, t, owner, to, token, amount);
    TwoBalances(s, owner, t.accounts[owner], to, t.accounts[to]);
  }

  lemma ParticipateTrx(s: State, t: State, owner: Address, to: Address, id: int, amount: I64)
    requires CanParticipate(s, owner, to, Some(id), amount) && t == DoParticipate(s, owner, to, id, amount).0
    ensures TrxTotal(t) == TrxTotal(s)
  {
    if DoParticipate(s, owner, to, id, amount).1 == Done {
      TwoBalances(s, owner, t.accounts[owner], to, t.accounts[to]);
    }
  }

  lemma UnfreezeTrx(s: State, t: State, owner: Address)
    requires CanUnfreeze(s, owner) && t == DoUnfreeze(s, owner).0
    ensures TrxTotal(t) == TrxTotal(s)
  {
    BalancesChange(s.accounts, owner, t.accounts[owner]);
  }

  lemma TradeTrx(s: State, t: State, owner: Address, pool: int, token: Token, x: int, y: int)
    requires Traded(s, t, owner, pool, token, x, y) && t.burned == s.burned
    ensures TrxTotal(t) == TrxTotal(s)
  {
    BalancesChange(s.accounts, owner, t.accounts[owner]);
    PoolsTrxChange(s.pools, pool, t.pools[pool]);
  }

  lemma CreatePoolTrx(s: State, t: State, owner: Address, x: Token, m: I64, y: Token, n: I64)
    requires PoolsOk(s) && BurnFits(s) && CanCreatePool(s, owner, x, m, y, n)
    requires t == DoCreatePool(s, owner, x, m, y, n).0
    ensures TrxTotal(t) == TrxTotal(s)
  {
    if DoCreatePool(s, owner, x, m, y, n).1 == Done {
      BalancesChange(s.accounts, owner, t.accounts[owner]);
      PoolsTrxChange(s.pools, s.latestExchange + 1, Pool(owner, x, m, y, n));
    }
  }

  ghost predicate BalancesOk(s: State) {
    forall a | a in s.accounts :: 0 <= s.accounts[a].balance <= I64_MAX
  }

  lemma PoolStepTrx(s: State, tx: Tx)
    requires PoolsOk(s) && (tx.Inject? || tx.WithdrawPool? || tx.Swap?)
    ensures TrxTotal(Apply(s, tx).0) == TrxTotal(s)
  {
    var t := Apply(s, tx).0;
    match tx
    case Inject(owner, pool, token, quant) =>
      if CanInject(s, owner, pool, token, quant) {
        InjectShape(s, t, owner, pool, token, quant);
        if t != s {
          TradeTrx(s, t, owner, pool, token, quant, Paired(s.pools[pool], token, quant));
        }
      }
    case WithdrawPool(owner, pool, token, quant, precise) =>
      if CanWithdrawPool(s, owner, pool, token, quant, precise) {
        WithdrawShape(s, t, owner, pool, token, quant);
        if t != s {
          TradeTrx(s, t, owner, pool, token, 0 - quant, 0 - Paired(s.pools[pool], token, quant));
        }
      }
    case Swap(owner, pool, token, quant, expected, bought) =>
      if CanSwap(s, owner, pool, token, quant, expected, bought) {
        SwapShape(s, t, owner, pool, token, quant, bought);
        if t != s {
          TradeTrx(s, t, owner, pool, token, quant, 0 - bought);
        }
      }
  }

  /** A step keeps all TRX accounted for, except an issue that burns a fee it never takes. */
  lemma StepTrx(s: State, tx: Tx)
    requires BalancesOk(s) && PoolsOk(s) && BurnFits(s)
    ensures TrxTotal(Apply(s, tx).0) == TrxTotal(s) + if HalfIssues(s, tx) then s.issueFee else 0
  {
    var t := Apply(s, tx).0;
    match tx
    case Issue(q) => if CanIssue(s, q) { IssueTrx(s, t, q); }
    case Transfer(owner, to, token, amount) =>
      if CanTransfer(s, owner, to, token, amount) { TransferTrx(s, t, owner, to, token, amount); }
    case Participate(owner, to, id, amount) =>
      if CanParticipate(s, owner, to, id, amount) { ParticipateTrx(s, t, owner, to, id.value, amount); }
    case Unfreeze(owner) => if CanUnfreeze(s, owner) { UnfreezeTrx(s, t, owner); }
    case CreatePool(owner, x, m, y, n) =>
      if CanCreatePool(s, owner, x, m, y, n) { CreatePoolTrx(s, t, owner, x, m, y, n); }
    case Tick(_) =>
    case _ => PoolStepTrx(s, tx);
  }

  // -- whole runs -----------------------------------------------------------

  lemma OneBalanceOk(s: State, t: State, a: Address, acc: Account)
    requires BalancesOk(s) && t.accounts == s.accounts[a := acc] && 0 <= acc.balance <= I64_MAX
    ensures BalancesOk(t)
  {
  }

  lemma TwoBalancesOk(s: State, t: State, a: Address, accA: Account, b: Address, accB: Account)
    requires BalancesOk(s) && t.accounts == s.accounts[a := accA][b := accB]
    requires 0 <= accA.balance <= I64_MAX && 0 <= accB.balance <= I64_MAX
    ensures BalancesOk(t)
  {
  }

  lemma IssueBalances(s: State, t: State, q: IssueRequest)
    requires BalancesOk(s) && CanIssue(s, q) && t == DoIssue(s, q).0
    ensures BalancesOk(t)
  {
    if MaturitiesFit(q) {
      OneBalanceOk(s, t, q.owner, t.accounts[q.owner]);
    }
  }

  lemma TransferBalances(s: State, t: State, owner: Address, to: Address, token: Token, amount: I64)
    requires BalancesOk(s) && CanTransfer(s, owner, to, token, amount) && t == DoTransfer(s, owner, to, token, amount).0
    ensures BalancesOk(t)
  {
    TransferShapeExact(s, t, owner, to, token, amount);
    TwoBalancesOk(s, t, owner, t.accounts[owner], to, t.accounts[to]);
  }

  lemma ParticipateBalances(s: State, t: State, owner: Address, to: Address, id: int, amount: I64)
    requires BalancesOk(s) && CanParticipate(s, owner, to, Some(id), amount)
    requires t == DoParticipate(s, owner, to, id, amount).0
    ensures BalancesOk(t)
  {
    if DoParticipate(s, owner, to, id, amount).1 == Done {
      TwoBalancesOk(s, t, owner, t.accounts[owner], to, t.accounts[to]);
    }
  }

  lemma UnfreezeBalances(s: State, t: State, owner: Address)
    requires BalancesOk(s) && CanUnfreeze(s, owner) && t == DoUnfreeze(s, owner).0
    ensures BalancesOk(t)
  {
    OneBalanceOk(s, t, owner, t.accounts[owner]);
  }

  lemma CreatePoolBalances(s: State, t: State, owner: Address, x: Token, m: I64, y: Token, n: I64)
    requires BalancesOk(s) && CanCreatePool(s, owner, x, m, y, n) && t == DoCreatePool(s, owner, x, m, y, n).0
    ensures BalancesOk(t)
  {
    if DoCreatePool(s, owner, x, m, y, n).1 == Done {
      OneBalanceOk(s, t, owner, t.accounts[owner]);
    }
  }

  lemma InjectBalances(s: State, t: State, owner: Address, pool: int, token: Token, quant: I64)
    requires BalancesOk(s) && CanInject(s, owner, pool, token, quant) && t == DoInject(s, owner, pool, token, quant).0
    ensures BalancesOk(t)
  {
    if DoInject(s, owner, pool, token, quant).1 == Done {
      OneBalanceOk(s, t, owner, t.accounts[owner]);
    }
  }

  lemma WithdrawBalances(s: State, t: State, owner: Address, pool: int, token: Token, quant: I64)
    requires BalancesOk(s) && CanWithdrawPool(s, owner, pool, token, quant, true)
    requires t == DoWithdrawPool(s, owner, pool, token, quant).0
    ensures BalancesOk(t)
  {
    if DoWithdrawPool(s, owner, pool, token, quant).1 == Done {
      OneBalanceOk(s, t, owner, t.accounts[owner]);
    }
  }

  lemma SwapBalances(s: State, t: State, owner: Address, pool: int, token: Token, quant: I64, bought: I64)
    requires BalancesOk(s) && OpenPool(s, owner, pool, token, quant) && bought > 0
    requires t == DoSwap(s, owner, pool, token, quant, bought).0
    ensures BalancesOk(t)
  {
    if DoSwap(s, owner, pool, token, quant, bought).1 == Done {
      OneBalanceOk(s, t, owner, t.accounts[owner]);
    }
  }

  /** No step makes a TRX balance negative or overflow. */
  lemma StepBalances(s: State, tx: Tx)
    requires BalancesOk(s)
    ensures BalancesOk(Apply(s, tx).0)
  {
    var t := Apply(s, tx).0;
    match tx
    case Issue(q) => if CanIssue(s, q) { IssueBalances(s, t, q); }
    case Transfer(owner, to, token, amount) =>
      if CanTransfer(s, owner, to, token, amount) { TransferBalances(s, t, owner, to, token, amount); }
    case Participate(owner, to, id, amount) =>
      if CanParticipate(s, owner, to, id, amount) { ParticipateBalances(s, t, owner, to, id.value, amount); }
    case Unfreeze(owner) => if CanUnfreeze(s, owner) { UnfreezeBalances(s, t, owner); }
    case CreatePool(owner, x, m, y, n) =>
      if CanCreatePool(s, owner, x, m, y, n) { CreatePoolBalances(s, t, owner, x, m, y, n); }
    case Inject(owner, pool, token, quant) =>
      if CanInject(s, owner, pool, token, quant) { InjectBalances(s, t, owner, pool, token, quant); }
    case WithdrawPool(owner, pool, token, quant, precise) =>
      if CanWithdrawPool(s, owner, pool, token, quant, precise) { WithdrawBalances(s, t, owner, pool, token, quant); }
    case Swap(owner, pool, token, quant, expected, bought) =>
      if CanSwap(s, owner, pool, token, quant, expected, bought) {
        SwapBalances(s, t, owner, pool, token, quant, bought);
      }
    case Tick(_) =>
  }

  lemma StepPools(s: State, tx: Tx)
    requires PoolsOk(s)
    ensures PoolsOk(Apply(s, tx).0)
  {
  }

  /** What an issue with an overflowing maturity date burns over a run without taking it. */
  ghost function UnpaidBurns(s: State, txs: seq<Tx>): nat {
    if txs == [] then 0
    else
      var front, last := txs[..|txs| - 1], txs[|txs| - 1];
      var before := RunAll(s, front);
      UnpaidBurns(s, front) + if HalfIssues(before, last) then before.issueFee else 0
  }

  /** The burn counter never saturates along the run. */
  predicate BurnsFit(s: State, txs: seq<Tx>) {
    txs == [] || (BurnsFit(s, txs[..|txs| - 1]) && BurnFits(RunAll(s, txs[..|txs| - 1])))
  }

  lemma {:induction false} RunKeepsBalances(s: State, txs: seq<Tx>)
    requires BalancesOk(s) && PoolsOk(s)
    ensures BalancesOk(RunAll(s, txs)) && PoolsOk(RunAll(s, txs))
  {
    if txs != [] {
      var front := txs[..|txs| - 1];
      RunKeepsBalances(s, front);
      StepBalances(RunAll(s, front), txs[|txs| - 1]);
      StepPools(RunAll(s, front), txs[|txs| - 1]);
    }
  }

  /**
   * Over every run: balances plus pool TRX plus the burn counter change only by the fees of
   * failed issues, which are counted as burned though no account paid them.
   */
  lemma {:induction false} RunConservesTrx(s: State, txs: seq<Tx>)
    requires BalancesOk(s) && PoolsOk(s) && BurnsFit(s, txs)
    ensures TrxTotal(RunAll(s, txs)) == TrxTotal(s) + UnpaidBurns(s, txs)
  {
    if txs != [] {
      var front := txs[..|txs| - 1];
      RunKeepsBalances(s, front);
      RunConservesTrx(s, front);
      StepTrx(RunAll(s, front), txs[|txs| - 1]);
    }
  }

  /** A transaction that does not go through changes nothing, unless it is such an issue. */
  lemma UnsuccessfulChangesNothing(s: State, tx: Tx)
    requires BalancesOk(s) && Apply(s, tx).1 != Done
    ensures Apply(s, tx).0 == s <==> !HalfIssues(s, tx)
  {
    if tx.Transfer? && CanTransfer(s, tx.owner, tx.to, tx.token, tx.amount) {
      TransferShapeExact(s, Apply(s, tx).0, tx.owner, tx.to, tx.token, tx.amount);
    }
  }

  /**
   * A purchase moves `amount` TRX to the issuer and, back, the largest number of tokens that
   * `amount` pays for at the issue's price.
   */
  lemma ParticipateMoves(s: State, t: State, owner: Address, to: Address, id: int, amount: I64)
    requires CanParticipate(s, owner, to, Some(id), amount) && DoParticipate(s, owner, to, id, amount) == (t, Done)
    requires s.assets[id].num > 0 && s.assets[id].trxNum > 0
    ensures var token, price := Trc10(id), s.assets[id];
            var got := TokenBalance(t.accounts[owner], token) - TokenBalance(s.accounts[owner], token);
            && price.trxNum * got <= amount * price.num < price.trxNum * got + price.trxNum
            && TokenBalance(t.accounts[to], token) == TokenBalance(s.accounts[to], token) - got >= 0
            && t.accounts[owner].balance == s.accounts[owner].balance - amount >= 0
            && t.accounts[to].balance == s.accounts[to].balance + amount
  {
    var price := s.assets[id];
    ProductPositive(amount, price.num);
    QuotientBounds(amount * price.num, price.trxNum);
  }
}
