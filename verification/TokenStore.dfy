/** The TRC10 and exchange actuators as they run, writing the stores step by step. */
module TokenStore {
  import opened Words
  import opened Tokens

  class Store {
    var accounts: map<Address, Account>
    var assets: map<int, Asset>
    var tokenIdNum: int
    var pools: map<int, Pool>
    var latestExchange: int
    var burned: int
    var now: int
    const issueFee: nat
    const accountFee: nat
    const exchangeFee: nat
    const poolLimit: int

    ghost function View(): State
      reads this
    {
      State(accounts, assets, tokenIdNum, pools, latestExchange, burned, now,
            issueFee, accountFee, exchangeFee, poolLimit)
    }

    constructor (s: State)
      ensures View() == s
    {
      accounts, assets, tokenIdNum, pools := s.accounts, s.assets, s.tokenIdNum, s.pools;
      latestExchange, burned, now := s.latestExchange, s.burned, s.now;
      issueFee, accountFee, exchangeFee, poolLimit := s.issueFee, s.accountFee, s.exchangeFee, s.poolLimit;
    }

    /** The frozen-supply loop of `validate`. */
    method CheckFrozenSupply(lots: seq<FrozenLot>, supply: int) returns (ok: bool)
      ensures ok <==> LotsOk(lots, supply)
    {
      var remain := supply;
      for i := 0 to |lots|
        invariant LotsOk(lots[..i], supply)
        invariant remain == supply - LotTotal(lots[..i])
      {
        var f := lots[i];
        assert lots[..i + 1][..i] == lots[..i];
        if f.amount <= 0 || f.amount > remain || !(MIN_FROZEN_SUPPLY_TIME <= f.days <= MAX_FROZEN_SUPPLY_TIME) {
          LotsOkPrefix(lots, supply, i + 1);
          return false;
        }
        remain := remain - f.amount;
      }
      assert lots[..|lots|] == lots;
      ok := true;
    }

    /** The splitting loop of `execute`: frozen lots with their maturity dates, and what remains. */
    method SplitSupply(q: IssueRequest) returns (fits: bool, remain: int, lots: seq<Lot>)
      ensures fits <==> MaturitiesFit(q)
      ensures fits ==> remain == q.totalSupply - LotTotal(q.frozen) && lots == LotsOf(q, q.frozen)
    {
      remain, lots := q.totalSupply, [];
      for i := 0 to |q.frozen|
        invariant remain == q.totalSupply - LotTotal(q.frozen[..i])
        invariant lots == LotsOf(q, q.frozen[..i])
        invariant forall j | 0 <= j < i :: FitsI64(Maturity(q, q.frozen[j]))
      {
        var f := q.frozen[i];
        assert q.frozen[..i + 1][..i] == q.frozen[..i];
        var expire := Maturity(q, f);
        if !FitsI64(expire) { return false, remain, lots; }
        lots := lots + [Lot(f.amount, expire)];
        remain := remain - f.amount;
      }
      assert q.frozen[..|q.frozen|] == q.frozen;
      fits := true;
    }

    method AssetIssue(q: IssueRequest) returns (outcome: Outcome)
      modifies this`accounts, this`assets, this`tokenIdNum, this`burned
      ensures (View(), outcome) == Apply(old(View()), Issue(q))
    {
      var lotsOk := CheckFrozenSupply(q.frozen, q.totalSupply);
      if !(q.textOk && q.start != 0 && q.end != 0 && q.end > q.start && q.start > now) { return Rejected; }
      if !(q.totalSupply > 0 && q.trxNum > 0 && q.num > 0) { return Rejected; }
      if |q.frozen| > MAX_FROZEN_SUPPLY_NUMBER || !lotsOk { return Rejected; }
      if q.owner !in accounts || accounts[q.owner].issued.Some? || accounts[q.owner].balance < issueFee {
        return Rejected;
      }
      // allocate the id, store the definition, burn the fee
      tokenIdNum := tokenIdNum + 1;
      assets := assets[tokenIdNum := Asset(q.owner, q.totalSupply, q.num, q.trxNum, q.start, q.end)];
      var account := accounts[q.owner];
      burned := SaturatingAdd64(burned, issueFee);
      var fits, remain, lots := SplitSupply(q);
      if !fits { return Failed; }
      accounts := accounts[q.owner := Account(account.balance - issueFee, account.assets[Trc10(tokenIdNum) := remain],
                                              Some(tokenIdNum), account.frozenSupply + lots)];
      outcome := Done;
    }

    /** `validate` of a transfer. */
    method CheckTransfer(owner: Address, to: Address, t: Token, amount: I64) returns (ok: bool)
      ensures ok <==> CanTransfer(View(), owner, to, t, amount)
    {
      if amount <= 0 || owner == to || owner !in accounts { return false; }
      var held := AssetBalance(accounts[owner], t);
      if held <= 0 || amount > held { return false; }
      if to in accounts {
        ok := t !in accounts[to].assets || FitsI64(accounts[to].assets[t] + amount);
      } else {
        ok := accounts[owner].balance >= accountFee;
      }
    }

    method TransferAsset(owner: Address, to: Address, t: Token, amount: I64) returns (outcome: Outcome)
      modifies this`accounts, this`burned
      ensures (View(), outcome) == Apply(old(View()), Transfer(owner, to, t, amount))
    {
      var ok := CheckTransfer(owner, to, t, amount);
      if !ok { return Rejected; }
      outcome := PerformTransfer(owner, to, t, amount);
    }

    /** `execute` of a transfer. */
    method PerformTransfer(owner: Address, to: Address, t: Token, amount: I64) returns (outcome: Outcome)
      requires CanTransfer(View(), owner, to, t, amount)
      modifies this`accounts, this`burned
      ensures (View(), outcome) == DoTransfer(old(View()), owner, to, t, amount)
    {
      var fee := 0;
      if to !in accounts {
        fee := accountFee;
        accounts := accounts[to := NewAccount];
      }
      var ownerAccount := accounts[owner];
      if !FitsI64(ownerAccount.balance - fee) || ownerAccount.balance - fee < 0 { return Failed; }
      var left := AssetBalance(ownerAccount, t) - amount;
      accounts := accounts[owner := ownerAccount.(assets := ownerAccount.assets[t := left],
                                                  balance := ownerAccount.balance - fee)];
      var toAccount := accounts[to];
      var sum := AssetBalance(toAccount, t) + amount;
      if !FitsI64(sum) { return Failed; }
      accounts := accounts[to := toAccount.(assets := toAccount.assets[t := sum])];
      burned := SaturatingAdd64(burned, fee);
      outcome := Done;
    }

    method ParticipateAssetIssue(owner: Address, to: Address, id: Option<int>, amount: I64) returns (outcome: Outcome)
      modifies this`accounts
      ensures (View(), outcome) == Apply(old(View()), Participate(owner, to, id, amount))
    {
      if amount <= 0 || owner == to || owner !in accounts || accounts[owner].balance < amount { return Rejected; }
      if id.None? || id.value !in assets { return Rejected; }
      var asset := assets[id.value];
      if asset.owner != to || now >= asset.end || now < asset.start { return Rejected; }
      var got := ExchangeAmount(amount, asset.num, asset.trxNum);
      if !FitsI64(got) || got <= 0 { return Rejected; }
      var t := Trc10(id.value);
      if to !in accounts || AssetBalance(accounts[to], t) < got { return Rejected; }
      var o, d := accounts[owner], accounts[to];
      if !FitsI64(AssetBalance(o, t) + got) { return Failed; }
      o := o.(balance := o.balance - amount, assets := o.assets[t := AssetBalance(o, t) + got]);
      if !FitsI64(d.balance + amount) { return Failed; }
      d := d.(balance := d.balance + amount, assets := d.assets[t := AssetBalance(d, t) - got]);
      accounts := accounts[owner := o];
      accounts := accounts[to := d];
      outcome := Done;
    }

    /** Split matured lots from the still-frozen ones, then credit the matured total. */
    method UnfreezeAsset(owner: Address) returns (outcome: Outcome)
      modifies this`accounts
      ensures (View(), outcome) == Apply(old(View()), Unfreeze(owner))
    {
      if owner !in accounts || accounts[owner].issued.None? { return Rejected; }
      var account := accounts[owner];
      if !AnyMatured(account.frozenSupply, now) { return Rejected; }
      var lots := account.frozenSupply;
      var amount := 0;
      var remaining := [];
      for i := 0 to |lots|
        invariant amount == MaturedTotal(lots[..i], now)
        invariant remaining == Remaining(lots[..i], now)
        invariant SumFits(lots[..i], now)
        invariant FitsI64(amount)
      {
        assert lots[..i + 1][..i] == lots[..i];
        if lots[i].expire <= now {
          amount := amount + lots[i].amount;
          if !FitsI64(amount) {
            SumFitsPrefix(lots, now, i + 1);
            return Failed;
          }
        } else {
          remaining := remaining + [lots[i]];
        }
      }
      assert lots[..|lots|] == lots;
      var t := Trc10(account.issued.value);
      var sum := AssetBalance(account, t) + amount;
      if !FitsI64(sum) { return Failed; }
      accounts := accounts[owner := account.(assets := account.assets[t := sum], frozenSupply := remaining)];
      outcome := Done;
    }

    method ExchangeCreate(owner: Address, t: Token, x: I64, u: Token, y: I64) returns (outcome: Outcome)
      modifies this`accounts, this`pools, this`latestExchange, this`burned
      ensures (View(), outcome) == Apply(old(View()), CreatePool(owner, t, x, u, y))
    {
      if owner !in accounts || accounts[owner].balance < exchangeFee { return Rejected; }
      var account := accounts[owner];
      if !WellNamed(t) || !WellNamed(u) || t == u { return Rejected; }
      if x <= 0 || y <= 0 || x > poolLimit || y > poolLimit { return Rejected; }
      if (if t.Trx? then account.balance < x + exchangeFee else AssetBalance(account, t) < x) { return Rejected; }
      if (if u.Trx? then account.balance < y + exchangeFee else AssetBalance(account, u) < y) { return Rejected; }
      account := account.(balance := account.balance - exchangeFee);
      var d1 := Debit(account, t, x);
      if d1.None? { return Failed; }
      var d2 := Debit(d1.value, u, y);
      if d2.None? { return Failed; }
      accounts := accounts[owner := d2.value];
      burned := SaturatingAdd64(burned, exchangeFee);
      pools := pools[latestExchange + 1 := Pool(owner, t, x, u, y)];
      latestExchange := latestExchange + 1;
      outcome := Done;
    }

    method ExchangeInject(owner: Address, pool: int, t: Token, quant: I64) returns (outcome: Outcome)
      modifies this`accounts, this`pools
      ensures (View(), outcome) == Apply(old(View()), Inject(owner, pool, t, quant))
    {
      if !CanInject(State(accounts, assets, tokenIdNum, pools, latestExchange, burned, now,
                          issueFee, accountFee, exchangeFee, poolLimit), owner, pool, t, quant) { return Rejected; }
      var p := pools[pool];
      var another := Paired(p, t, quant);
      var other := OtherToken(p, t);
      if t == p.first {
        p := p.(firstBalance := p.firstBalance + quant, secondBalance := p.secondBalance + another);
      } else {
        p := p.(secondBalance := p.secondBalance + quant, firstBalance := p.firstBalance + another);
      }
      var d1 := Debit(accounts[owner], t, quant);
      if d1.None? { return Failed; }
      var d2 := Debit(d1.value, other, another);
      if d2.None? { return Failed; }
      accounts := accounts[owner := d2.value];
      pools := pools[pool := p];
      outcome := Done;
    }

    method ExchangeWithdraw(owner: Address, pool: int, t: Token, quant: I64, precise: bool) returns (outcome: Outcome)
      modifies this`accounts, this`pools
      ensures (View(), outcome) == Apply(old(View()), WithdrawPool(owner, pool, t, quant, precise))
    {
      if !CanWithdrawPool(State(accounts, assets, tokenIdNum, pools, latestExchange, burned, now,
                                issueFee, accountFee, exchangeFee, poolLimit), owner, pool, t, quant, precise) {
        return Rejected;
      }
      var p := pools[pool];
      var another := Paired(p, t, quant);
      var other := OtherToken(p, t);
      if t == p.first {
        p := p.(firstBalance := p.firstBalance - quant, secondBalance := p.secondBalance - another);
      } else {
        p := p.(secondBalance := p.secondBalance - quant, firstBalance := p.firstBalance - another);
      }
      var c1 := Credit(accounts[owner], t, quant);
      if c1.None? { return Failed; }
      var c2 := Credit(c1.value, other, another);
      if c2.None? { return Failed; }
      accounts := accounts[owner := c2.value];
      pools := pools[pool := p];
      outcome := Done;
    }

    method ExchangeTransaction(owner: Address, pool: int, t: Token, quant: I64, expected: I64, bought: I64)
      returns (outcome: Outcome)
      modifies this`accounts, this`pools
      ensures (View(), outcome) == Apply(old(View()), Swap(owner, pool, t, quant, expected, bought))
    {
      if !CanSwap(State(accounts, assets, tokenIdNum, pools, latestExchange, burned, now,
                        issueFee, accountFee, exchangeFee, poolLimit), owner, pool, t, quant, expected, bought) {
        return Rejected;
      }
      var p := pools[pool];
      var other := OtherToken(p, t);
      if t == p.first {
        p := p.(firstBalance := p.firstBalance + quant, secondBalance := p.secondBalance - bought);
      } else {
        p := p.(firstBalance := p.firstBalance - bought, secondBalance := p.secondBalance + quant);
      }
      var d := Debit(accounts[owner], t, quant);
      if d.None? { return Failed; }
      var c := Credit(d.value, other, bought);
      if c.None? { return Failed; }
      accounts := accounts[owner := c.value];
      pools := pools[pool := p];
      outcome := Done;
    }
  }

  lemma {:induction false} LotsOkPrefix(lots: seq<FrozenLot>, supply: int, n: nat)
    requires n <= |lots|
    ensures LotsOk(lots, supply) ==> LotsOk(lots[..n], supply)
    decreases |lots|
  {
    if n == |lots| {
      assert lots[..n] == lots;
    } else {
      LotsOkPrefix(lots[..|lots| - 1], supply, n);
      assert lots[..|lots| - 1][..n] == lots[..n];
    }
  }

  lemma {:induction false} SumFitsPrefix(lots: seq<Lot>, now: int, n: nat)
    requires n <= |lots|
    ensures SumFits(lots, now) ==> SumFits(lots[..n], now)
    decreases |lots|
  {
    if n == |lots| {
      assert lots[..n] == lots;
    } else {
      SumFitsPrefix(lots[..|lots| - 1], now, n);
      assert lots[..|lots| - 1][..n] == lots[..n];
    }
  }
}
