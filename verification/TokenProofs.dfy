/** Every TRC10 token's supply is conserved by every run. */
module TokenProofs {
  import opened Words
  import opened MapSum
  import opened Tokens

  // -- where a token can be ------------------------------------------------

  function FrozenTotal(lots: seq<Lot>): int {
    if lots == [] then 0 else FrozenTotal(lots[..|lots| - 1]) + lots[|lots| - 1].amount
  }

  /** What an account holds of token `id`, spendable or still frozen from its issue. */
  function AccountShare(a: Account, id: int): int {
    AssetBalance(a, Trc10(id)) + if a.issued == Some(id) then FrozenTotal(a.frozenSupply) else 0
  }

  function PoolShare(p: Pool, id: int): int {
    (if p.first == Trc10(id) then p.firstBalance else 0) +
    (if p.second == Trc10(id) then p.secondBalance else 0)
  }

  function AccountShares(accounts: map<Address, Account>, id: int): map<Address, int> {
    map a | a in accounts :: AccountShare(accounts[a], id)
  }

  function PoolShares(pools: map<int, Pool>, id: int): map<int, int> {
    map e | e in pools :: PoolShare(pools[e], id)
  }

  /** Everything of token `id` that exists: in accounts, frozen with its issuer, in pools. */
  ghost function Holdings(s: State, id: int): int {
    Sum(AccountShares(s.accounts, id)) + Sum(PoolShares(s.pools, id))
  }

  // -- the invariant ------------------------------------------------------

  predicate Known(s: State, t: Token) {
    t.Trc10? && t.id in s.assets
  }

  /** Accounts hold only issued tokens; only issuers have frozen supply. */
  predicate AccountKnown(s: State, a: Account) {
    && (forall t | t in a.assets :: Known(s, t))
    && (a.issued.Some? ==> a.issued.value in s.assets)
    && (a.issued.None? ==> a.frozenSupply == [])
  }

  /** Pools trade two different tokens, each TRX or issued. */
  predicate PoolKnown(s: State, p: Pool) {
    p.first != p.second && (p.first.Trx? || Known(s, p.first)) && (p.second.Trx? || Known(s, p.second))
  }

  ghost predicate Shaped(s: State) {
    && (forall id | id in s.assets :: id <= s.tokenIdNum)
    && (forall a | a in s.accounts :: AccountKnown(s, s.accounts[a]))
    && (forall e | e in s.pools :: e <= s.latestExchange && PoolKnown(s, s.pools[e]))
  }

  /** What should exist of a registered token; nothing of one whose issue failed half way. */
  function Backing(s: State, void: set<int>, id: int): int
    requires id in s.assets
  {
    if id in void then 0 else s.assets[id].totalSupply
  }

  ghost predicate Conserved(s: State, void: set<int>) {
    void <= s.assets.Keys && forall id | id in s.assets :: Holdings(s, id) == Backing(s, void, id)
  }

  /** The supply equation, with `void` the ids registered by issues that failed. */
  ghost predicate SupplyOk(s: State, void: set<int>) {
    Shaped(s) && Conserved(s, void)
  }

  // -- how holdings change ------------------------------------------------

  function ShareAt(accounts: map<Address, Account>, a: Address, id: int): int {
    if a in accounts then AccountShare(accounts[a], id) else 0
  }

  lemma AccountsChange(before: map<Address, Account>, a: Address, acc: Account, id: int)
    ensures Sum(AccountShares(before[a := acc], id)) ==
            Sum(AccountShares(before, id)) - ShareAt(before, a, id) + AccountShare(acc, id)
  {
    var after := before[a := acc];
    assert AccountShares(before, id) - {a} == AccountShares(after, id) - {a};
    SumChange(AccountShares(before, id), AccountShares(after, id), a);
  }

  lemma PoolsChange(before: map<int, Pool>, e: int, p: Pool, id: int)
    ensures Sum(PoolShares(before[e := p], id)) ==
            Sum(PoolShares(before, id)) - (if e in before then PoolShare(before[e], id) else 0) + PoolShare(p, id)
  {
    var after := before[e := p];
    assert PoolShares(before, id) - {e} == PoolShares(after, id) - {e};
    SumChange(PoolShares(before, id), PoolShares(after, id), e);
  }

  /** A token that was never issued is nowhere. */
  lemma UnissuedIsNowhere(s: State, id: int)
    requires Shaped(s) && id !in s.assets
    ensures Holdings(s, id) == 0
    ensures forall a | a in s.accounts :: AccountShare(s.accounts[a], id) == 0
  {
    var xs, ys := AccountShares(s.accounts, id), PoolShares(s.pools, id);
    forall a | a in xs
      ensures xs[a] == 0
    {
      assert AccountKnown(s, s.accounts[a]);
    }
    forall e | e in ys
      ensures ys[e] == 0
    {
      assert PoolKnown(s, s.pools[e]);
    }
    SumOfZeros(xs);
    SumOfZeros(ys);
  }

  // -- one account and one pool change -------------------------------------

  /**
   * A step that replaces one account and leaves registry and pools alone keeps the supply if
   * the account's share of every token is unchanged.
   */
  lemma OneAccountKeeps(s: State, t: State, a: Address, acc: Account, void: set<int>)
    requires SupplyOk(s, void) && a in s.accounts
    requires t.accounts == s.accounts[a := acc] && t.pools == s.pools && t.assets == s.assets
    requires t.tokenIdNum == s.tokenIdNum && t.latestExchange == s.latestExchange
    requires AccountKnown(s, acc)
    requires forall id | id in s.assets :: AccountShare(acc, id) == AccountShare(s.accounts[a], id)
    ensures SupplyOk(t, void)
  {
    forall id | id in t.assets
      ensures Holdings(t, id) == Backing(t, void, id)
    {
      AccountsChange(s.accounts, a, acc, id);
    }
    KnownStays(s, t);
  }

  /** What was known stays known while the registry only grows. */
  lemma KnownStays(s: State, t: State)
    requires s.assets.Keys <= t.assets.Keys
    ensures forall a: Account | AccountKnown(s, a) :: AccountKnown(t, a)
    ensures forall p: Pool | PoolKnown(s, p) :: PoolKnown(t, p)
  {
    forall a: Account | AccountKnown(s, a)
      ensures AccountKnown(t, a)
    {
      if a.issued.Some? {
        assert a.issued.value in s.assets;
      }
      forall x | x in a.assets
        ensures Known(t, x)
      {
        assert Known(s, x);
      }
    }
  }

  /** Two accounts change and what one gains the other loses. */
  lemma TwoAccountsKeep(s: State, t: State, a: Address, accA: Account, b: Address, accB: Account, void: set<int>)
    requires SupplyOk(s, void) && a != b
    requires t.accounts == s.accounts[a := accA][b := accB] && t.pools == s.pools && t.assets == s.assets
    requires t.tokenIdNum == s.tokenIdNum && t.latestExchange == s.latestExchange
    requires AccountKnown(s, accA) && AccountKnown(s, accB)
    requires forall id | id in s.assets ::
               AccountShare(accA, id) + AccountShare(accB, id) ==
               ShareAt(s.accounts, a, id) + ShareAt(s.accounts, b, id)
    ensures SupplyOk(t, void)
  {
    forall id | id in t.assets
      ensures Holdings(t, id) == Backing(t, void, id)
    {
      TwoAccountsHoldings(s, t, a, accA, b, accB, id);
    }
    KnownStays(s, t);
  }

  lemma TwoAccountsHoldings(s: State, t: State, a: Address, accA: Account, b: Address, accB: Account, id: int)
    requires a != b && t.accounts == s.accounts[a := accA][b := accB] && t.pools == s.pools
    requires AccountShare(accA, id) + AccountShare(accB, id) ==
             ShareAt(s.accounts, a, id) + ShareAt(s.accounts, b, id)
    ensures Holdings(t, id) == Holdings(s, id)
  {
    AccountsChange(s.accounts, a, accA, id);
    AccountsChange(s.accounts[a := accA], b, accB, id);
  }

  /** An account and a pool change and what one gains the other loses. */
  lemma PoolStepKeeps(s: State, t: State, a: Address, acc: Account, e: int, p: Pool, void: set<int>)
    requires SupplyOk(s, void) && a in s.accounts
    requires t.accounts == s.accounts[a := acc] && t.pools == s.pools[e := p] && t.assets == s.assets
    requires t.tokenIdNum == s.tokenIdNum && e <= t.latestExchange && s.latestExchange <= t.latestExchange
    requires AccountKnown(s, acc) && PoolKnown(s, p)
    requires forall id | id in s.assets ::
               AccountShare(acc, id) + PoolShare(p, id) ==
               AccountShare(s.accounts[a], id) + if e in s.pools then PoolShare(s.pools[e], id) else 0
    ensures SupplyOk(t, void)
  {
    PoolStepShaped(s, t, a, acc, e, p);
    forall id | id in t.assets
      ensures Holdings(t, id) == Backing(t, void, id)
    {
      PoolStepHoldings(s, t, a, acc, e, p, id);
    }
  }

  lemma PoolStepShaped(s: State, t: State, a: Address, acc: Account, e: int, p: Pool)
    requires Shaped(s) && AccountKnown(s, acc) && PoolKnown(s, p)
    requires t.accounts == s.accounts[a := acc] && t.pools == s.pools[e := p] && t.assets == s.assets
    requires t.tokenIdNum == s.tokenIdNum && e <= t.latestExchange && s.latestExchange <= t.latestExchange
    ensures Shaped(t)
  {
    KnownStays(s, t);
  }

  lemma PoolStepHoldings(s: State, t: State, a: Address, acc: Account, e: int, p: Pool, id: int)
    requires a in s.accounts
    requires t.accounts == s.accounts[a := acc] && t.pools == s.pools[e := p]
    requires AccountShare(acc, id) + PoolShare(p, id) ==
             AccountShare(s.accounts[a], id) + if e in s.pools then PoolShare(s.pools[e], id) else 0
    ensures Holdings(t, id) == Holdings(s, id)
  {
    AccountsChange(s.accounts, a, acc, id);
    PoolsChange(s.pools, e, p, id);
  }

  // -- issue --------------------------------------------------------------

  lemma {:induction false} LotsKeepAmounts(q: IssueRequest, old_: seq<Lot>, lots: seq<FrozenLot>)
    ensures FrozenTotal(old_ + LotsOf(q, lots)) == FrozenTotal(old_) + LotTotal(lots)
  {
    if lots == [] {
      assert old_ + [] == old_;
    } else {
      var front := lots[..|lots| - 1];
      LotsKeepAmounts(q, old_, front);
      var xs := old_ + LotsOf(q, lots);
      assert xs[..|xs| - 1] == old_ + LotsOf(q, front);
    }
  }

  lemma IssuerKnown(s: State, t: State, a: Account, q: IssueRequest, id: int, fee: nat)
    requires AccountKnown(s, a) && id in t.assets && s.assets.Keys <= t.assets.Keys
    ensures AccountKnown(t, IssuerAfter(a, q, id, fee))
  {
    var acc := IssuerAfter(a, q, id, fee);
    forall x | x in acc.assets
      ensures Known(t, x)
    {
      if x != Trc10(id) {
        assert Known(s, x);
      }
    }
  }

  /** The issuer's share of the new token is the whole supply; of other tokens, what it was. */
  lemma IssuerShare(a: Account, q: IssueRequest, id: int, fee: nat, other: int)
    requires a.issued == None && a.frozenSupply == []
    ensures AccountShare(IssuerAfter(a, q, id, fee), other) ==
            if other == id then q.totalSupply else AccountShare(a, other)
  {
    LotsKeepAmounts(q, a.frozenSupply, q.frozen);
  }

  /** Issuing creates exactly the total supply of a fresh id and touches no other token. */
  lemma IssueKeeps(s: State, q: IssueRequest, void: set<int>)
    requires SupplyOk(s, void) && CanIssue(s, q) && MaturitiesFit(q)
    ensures SupplyOk(DoIssue(s, q).0, void)
  {
    NewTokenKeeps(s, DoIssue(s, q).0, q, s.tokenIdNum + 1, void);
  }

  lemma NewTokenKeeps(s: State, t: State, q: IssueRequest, new_: int, void: set<int>)
    requires SupplyOk(s, void) && q.owner in s.accounts && s.accounts[q.owner].issued == None
    requires new_ == s.tokenIdNum + 1 == t.tokenIdNum
    requires t.accounts == s.accounts[q.owner := IssuerAfter(s.accounts[q.owner], q, new_, s.issueFee)]
    requires t.assets == s.assets[new_ := Asset(q.owner, q.totalSupply, q.num, q.trxNum, q.start, q.end)]
    requires t.pools == s.pools && t.latestExchange == s.latestExchange
    ensures SupplyOk(t, void)
  {
    var a := s.accounts[q.owner];
    var acc := IssuerAfter(a, q, new_, s.issueFee);
    assert AccountKnown(s, a);
    IssuerKnown(s, t, a, q, new_, s.issueFee);
    IssueRegisters(s, t, q.owner, acc, new_);
    UnissuedIsNowhere(s, new_);
    forall id | id in t.assets
      ensures Holdings(t, id) == Backing(t, void, id)
    {
      NewTokenHoldings(s, t, q, new_, id);
    }
  }

  /** Issuing adds the supply to the new id's holdings and changes no other. */
  lemma NewTokenHoldings(s: State, t: State, q: IssueRequest, new_: int, id: int)
    requires q.owner in s.accounts
    requires s.accounts[q.owner].issued == None && s.accounts[q.owner].frozenSupply == []
    requires AssetBalance(s.accounts[q.owner], Trc10(new_)) == 0
    requires t.accounts == s.accounts[q.owner := IssuerAfter(s.accounts[q.owner], q, new_, s.issueFee)]
    requires t.pools == s.pools
    ensures Holdings(t, id) == Holdings(s, id) + if id == new_ then q.totalSupply else 0
  {
    var a := s.accounts[q.owner];
    AccountsChange(s.accounts, q.owner, IssuerAfter(a, q, new_, s.issueFee), id);
    IssuerShare(a, q, new_, s.issueFee, id);
  }

  lemma IssueRegisters(s: State, t: State, owner: Address, acc: Account, new_: int)
    requires Shaped(s) && new_ == s.tokenIdNum + 1 == t.tokenIdNum
    requires t.assets.Keys == s.assets.Keys + {new_}
    requires t.accounts == s.accounts[owner := acc] && AccountKnown(t, acc)
    requires t.pools == s.pools && t.latestExchange == s.latestExchange
    ensures Shaped(t)
  {
    KnownStays(s, t);
  }

  /** An issue whose maturity date overflows registers an id that exists nowhere. */
  lemma FailedIssueIsVoid(s: State, q: IssueRequest, void: set<int>)
    requires SupplyOk(s, void) && CanIssue(s, q) && !MaturitiesFit(q)
    ensures SupplyOk(DoIssue(s, q).0, void + {s.tokenIdNum + 1})
  {
    var t := DoIssue(s, q).0;
    UnissuedIsNowhere(s, s.tokenIdNum + 1);
    KnownStays(s, t);
    forall id | id in t.assets
      ensures Holdings(t, id) == Backing(t, void + {s.tokenIdNum + 1}, id)
    {
      assert Holdings(t, id) == Holdings(s, id);
    }
  }

  /**
   * An issue whose maturity date overflows fails after the asset has been registered: the
   * supply it announces exists nowhere. So a validated issue keeps the supply exactly when
   * its maturity dates fit.
   */
  lemma IssueKeepsIffMaturitiesFit(s: State, q: IssueRequest, void: set<int>)
    requires SupplyOk(s, void) && CanIssue(s, q)
    ensures SupplyOk(DoIssue(s, q).0, void) <==> MaturitiesFit(q)
  {
    if MaturitiesFit(q) {
      IssueKeeps(s, q, void);
    } else {
      var t := DoIssue(s, q).0;
      var new_ := s.tokenIdNum + 1;
      UnissuedIsNowhere(s, new_);
      assert Holdings(t, new_) == 0;
      assert new_ in t.assets && new_ !in void && t.assets[new_].totalSupply > 0;
    }
  }

  /**
   * Such a request: one lot of one day, starting in the last milliseconds of `i64` time, with the
   * default fee. The id is registered and the fee burned, and the owner has paid nothing.
   */
  lemma FailingIssueExists(owner: Address) returns (s: State, q: IssueRequest)
    ensures SupplyOk(s, {}) && CanIssue(s, q) && !MaturitiesFit(q) && q.owner == owner
    ensures s.issueFee == DEFAULT_ASSET_ISSUE_FEE
    ensures var (t, outcome) := DoIssue(s, q);
            && outcome == Failed && s.tokenIdNum + 1 in t.assets && s.tokenIdNum + 1 !in s.assets
            && t.burned == s.burned + s.issueFee && t.accounts == s.accounts
  {
    var issuer := NewAccount.(balance := DEFAULT_ASSET_ISSUE_FEE);
    s := State(map[owner := issuer], map[], TOKEN_ID_BASE, map[], 0, 0, 0, DEFAULT_ASSET_ISSUE_FEE, 0, 0, 0);
    var lot := FrozenLot(1, 1);
    q := IssueRequest(owner, true, 2, 1, 1, 0x7fff_ffff_ffff_fff0, 0x7fff_ffff_ffff_ffff, [lot]);
    GenesisSupplyOk(s);
    OneLotOk(lot, q.totalSupply);
    assert !FitsI64(Maturity(q, q.frozen[0]));
  }

  lemma OneLotOk(f: FrozenLot, supply: int)
    requires 0 < f.amount <= supply && MIN_FROZEN_SUPPLY_TIME <= f.days <= MAX_FROZEN_SUPPLY_TIME
    ensures LotsOk([f], supply)
  {
    var lots := [f];
    var none: seq<FrozenLot> := [];
    assert lots[..0] == none;
    assert LotTotal(none) == 0 && LotsOk(none, supply);
  }

  // -- transfer, participate, unfreeze --------------------------------------

  lemma SetTokenShare(a: Account, t: Token, v: int, id: int)
    ensures AccountShare(SetToken(a, t, v), id) ==
            AccountShare(a, id) + if t == Trc10(id) then v - TokenBalance(a, t) else 0
  {
  }

  lemma SetTokenKnown(s: State, a: Account, t: Token, v: int)
    requires AccountKnown(s, a) && (t.Trx? || Known(s, t))
    ensures AccountKnown(s, SetToken(a, t, v))
  {
    var b := SetToken(a, t, v);
    forall x | x in b.assets
      ensures Known(s, x)
    {
      if x != t {
        assert x in a.assets;
      }
    }
  }

  lemma NewAccountKeeps(s: State, to: Address, void: set<int>)
    requires SupplyOk(s, void) && to !in s.accounts
    ensures SupplyOk(PutAccount(s, to, NewAccount), void)
  {
    var t := PutAccount(s, to, NewAccount);
    forall id | id in t.assets
      ensures Holdings(t, id) == Backing(t, void, id)
    {
      AccountsChange(s.accounts, to, NewAccount, id);
    }
    KnownStays(s, t);
  }

  /** `b` is `a` with `delta` more of `token`, whatever happened to its TRX. */
  predicate Gains(a: Account, b: Account, token: Token, delta: int) {
    b == a.(balance := b.balance, assets := a.assets[token := AssetBalance(a, token) + delta])
  }

  lemma GainsOne(a: Account, b: Account, token: Token, delta: int, id: int)
    requires Gains(a, b, token, delta)
    ensures AccountShare(b, id) == AccountShare(a, id) + if token == Trc10(id) then delta else 0
  {
  }

  lemma GainsKnown(s: State, a: Account, b: Account, token: Token, delta: int)
    requires Gains(a, b, token, delta) && AccountKnown(s, a) && Known(s, token)
    ensures AccountKnown(s, b)
  {
    forall x | x in b.assets
      ensures Known(s, x)
    {
      if x != token {
        assert x in a.assets;
      }
    }
  }

  ghost predicate Moved(s: State, t: State, src: Address, accA: Account, dst: Address, accB: Account, token: Token,
                        amount: int) {
    && src != dst && src in s.accounts && dst in s.accounts
    && Gains(s.accounts[src], accA, token, -amount) && Gains(s.accounts[dst], accB, token, amount)
    && t.accounts == s.accounts[src := accA][dst := accB]
    && t.pools == s.pools && t.assets == s.assets
    && t.tokenIdNum == s.tokenIdNum && t.latestExchange == s.latestExchange
  }

  /** What one account gains of each token the other loses. */
  lemma GainsCancel(a: Account, accA: Account, b: Account, accB: Account, token: Token, amount: int, id: int)
    requires Gains(a, accA, token, -amount) && Gains(b, accB, token, amount)
    ensures AccountShare(accA, id) + AccountShare(accB, id) == AccountShare(a, id) + AccountShare(b, id)
  {
    GainsOne(a, accA, token, -amount, id);
    GainsOne(b, accB, token, amount, id);
  }

  /** Moving a known token between two accounts keeps the supply. */
  lemma MoveKeeps(s: State, t: State, src: Address, accA: Account, dst: Address, accB: Account, token: Token,
                  amount: int, void: set<int>)
    requires SupplyOk(s, void) && Known(s, token)
    requires Moved(s, t, src, accA, dst, accB, token, amount)
    ensures SupplyOk(t, void)
  {
    assert AccountKnown(s, s.accounts[src]) && AccountKnown(s, s.accounts[dst]);
    GainsKnown(s, s.accounts[src], accA, token, -amount);
    GainsKnown(s, s.accounts[dst], accB, token, amount);
    forall id | id in s.assets
      ensures AccountShare(accA, id) + AccountShare(accB, id) ==
              ShareAt(s.accounts, src, id) + ShareAt(s.accounts, dst, id)
    {
      GainsCancel(s.accounts[src], accA, s.accounts[dst], accB, token, amount, id);
    }
    TwoAccountsKeep(s, t, src, accA, dst, accB, void);
  }

  lemma HeldIsKnown(s: State, a: Address, t: Token)
    requires Shaped(s) && a in s.accounts && AssetBalance(s.accounts[a], t) != 0
    ensures Known(s, t)
  {
    assert AccountKnown(s, s.accounts[a]);
  }

  /** The state `execute` works on: the target account exists. */
  function WithTarget(s: State, to: Address): State {
    if to in s.accounts then s else PutAccount(s, to, NewAccount)
  }

  /** A validated transfer cannot stop after the owner was debited. */
  lemma TransferSumFits(s: State, owner: Address, to: Address, token: Token, amount: I64)
    requires CanTransfer(s, owner, to, token, amount)
    ensures var s1 := WithTarget(s, to);
            FitsI64(AssetBalance(s1.accounts[to], token) + amount)
  {
  }

  lemma TransferState(s: State, t: State, owner: Address, to: Address, token: Token, amount: I64, s1: State, fee: nat)
    requires CanTransfer(s, owner, to, token, amount) && t == DoTransfer(s, owner, to, token, amount).0
    requires s1 == WithTarget(s, to) && fee == if to in s.accounts then 0 else s.accountFee
    ensures var o, d := s1.accounts[owner], s1.accounts[to];
            t == s1 ||
            t == s1.(
              accounts := s1.accounts[
                owner := o.(assets := o.assets[token := AssetBalance(o, token) - amount], balance := o.balance - fee)][
                to := d.(assets := d.assets[token := AssetBalance(d, token) + amount])],
              burned := SaturatingAdd64(s.burned, fee))
  {
    TransferSumFits(s, owner, to, token, amount);
  }

  lemma TransferShape(s: State, t: State, owner: Address, to: Address, token: Token, amount: I64)
    requires CanTransfer(s, owner, to, token, amount) && t == DoTransfer(s, owner, to, token, amount).0
    ensures var s1 := WithTarget(s, to);
            t == s1 || Moved(s1, t, owner, t.accounts[owner], to, t.accounts[to], token, amount)
  {
    TransferState(s, t, owner, to, token, amount, WithTarget(s, to), if to in s.accounts then 0 else s.accountFee);
  }

  lemma TransferKeeps(s: State, t: State, owner: Address, to: Address, token: Token, amount: I64, void: set<int>)
    requires SupplyOk(s, void) && CanTransfer(s, owner, to, token, amount)
    requires t == DoTransfer(s, owner, to, token, amount).0
    ensures SupplyOk(t, void)
  {
    var s1 := WithTarget(s, to);
    if to !in s.accounts {
      NewAccountKeeps(s, to, void);
    }
    HeldIsKnown(s, owner, token);
    TransferShape(s, t, owner, to, token, amount);
    if t != s1 {
      MoveKeeps(s1, t, owner, t.accounts[owner], to, t.accounts[to], token, amount, void);
    }
  }

  lemma ParticipateShape(s: State, t: State, owner: Address, to: Address, id: int, amount: I64)
    requires CanParticipate(s, owner, to, Some(id), amount) && t == DoParticipate(s, owner, to, id, amount).0
    ensures t == s || Moved(s, t, to, t.accounts[to], owner, t.accounts[owner], Trc10(id),
                            ExchangeAmount(amount, s.assets[id].num, s.assets[id].trxNum))
  {
    if t != s {
      assert t.accounts == s.accounts[to := t.accounts[to]][owner := t.accounts[owner]];
    }
  }

  lemma ParticipateKeeps(s: State, t: State, owner: Address, to: Address, id: int, amount: I64, void: set<int>)
    requires SupplyOk(s, void) && CanParticipate(s, owner, to, Some(id), amount)
    requires t == DoParticipate(s, owner, to, id, amount).0
    ensures SupplyOk(t, void)
  {
    ParticipateShape(s, t, owner, to, id, amount);
    if t != s {
      MoveKeeps(s, t, to, t.accounts[to], owner, t.accounts[owner], Trc10(id),
                ExchangeAmount(amount, s.assets[id].num, s.assets[id].trxNum), void);
    }
  }

  lemma {:induction false} MaturedAndRemaining(lots: seq<Lot>, now: int)
    ensures FrozenTotal(lots) == MaturedTotal(lots, now) + FrozenTotal(Remaining(lots, now))
  {
    if lots != [] {
      MaturedAndRemaining(lots[..|lots| - 1], now);
      var rest := Remaining(lots[..|lots| - 1], now);
      if lots[|lots| - 1].expire > now {
        assert Remaining(lots, now)[..|rest|] == rest;
      }
    }
  }

  lemma UnfreezeKeeps(s: State, owner: Address, void: set<int>)
    requires SupplyOk(s, void) && CanUnfreeze(s, owner)
    ensures SupplyOk(DoUnfreeze(s, owner).0, void)
  {
    var (t, outcome) := DoUnfreeze(s, owner);
    if outcome == Done {
      var a := s.accounts[owner];
      var token := Trc10(a.issued.value);
      assert AccountKnown(s, a);
      MaturedAndRemaining(a.frozenSupply, s.now);
      SetTokenKnown(s, a, token, AssetBalance(a, token) + MaturedTotal(a.frozenSupply, s.now));
      OneAccountKeeps(s, t, owner, t.accounts[owner], void);
    }
  }

  // -- pools --------------------------------------------------------------

  /** `a` after paying `x` of `t` and `y` of `u`. */
  function Pay(a: Account, t: Token, x: int, u: Token, y: int): Account
    requires t != u
  {
    SetToken(SetToken(a, t, TokenBalance(a, t) - x), u, TokenBalance(a, u) - y)
  }

  lemma PayShare(a: Account, t: Token, x: int, u: Token, y: int, id: int)
    requires t != u
    ensures AccountShare(Pay(a, t, x, u, y), id) ==
            AccountShare(a, id) - (if t == Trc10(id) then x else 0) - (if u == Trc10(id) then y else 0)
  {
    var b := SetToken(a, t, TokenBalance(a, t) - x);
    SetTokenShare(a, t, TokenBalance(a, t) - x, id);
    SetTokenShare(b, u, TokenBalance(a, u) - y, id);
    assert TokenBalance(b, u) == TokenBalance(a, u);
  }

  lemma ShiftShare(p: Pool, t: Token, x: int, y: int, id: int)
    requires p.first != p.second && (t == p.first || t == p.second)
    ensures PoolShare(Shift(p, t, x, y), id) ==
            PoolShare(p, id) + (if t == Trc10(id) then x else 0) + (if OtherToken(p, t) == Trc10(id) then y else 0)
  {
  }

  /** The trader paid `x` of `token` and `y` of the other token into the pool. */
  ghost predicate Traded(s: State, t: State, owner: Address, pool: int, token: Token, x: int, y: int) {
    && owner in s.accounts && pool in s.pools
    && var p := s.pools[pool];
    && p.first != p.second && (token == p.first || token == p.second)
    && t.accounts == s.accounts[owner := Pay(s.accounts[owner], token, x, OtherToken(p, token), y)]
    && t.pools == s.pools[pool := Shift(p, token, x, y)]
    && t.assets == s.assets && t.tokenIdNum == s.tokenIdNum && t.latestExchange == s.latestExchange
  }

  /** What the trader pays the pool gains, token by token. */
  lemma TradeKeeps(s: State, t: State, owner: Address, pool: int, token: Token, x: int, y: int, void: set<int>)
    requires SupplyOk(s, void) && Traded(s, t, owner, pool, token, x, y)
    ensures SupplyOk(t, void)
  {
    var p, a := s.pools[pool], s.accounts[owner];
    var other := OtherToken(p, token);
    var acc := Pay(a, token, x, other, y);
    assert AccountKnown(s, a) && PoolKnown(s, p);
    SetTokenKnown(s, a, token, TokenBalance(a, token) - x);
    SetTokenKnown(s, SetToken(a, token, TokenBalance(a, token) - x), other, TokenBalance(a, other) - y);
    forall id | id in s.assets
      ensures AccountShare(acc, id) + PoolShare(Shift(p, token, x, y), id) == AccountShare(a, id) + PoolShare(p, id)
    {
      PayShare(a, token, x, other, y, id);
      ShiftShare(p, token, x, y, id);
    }
    PoolStepKeeps(s, t, owner, acc, pool, Shift(p, token, x, y), void);
  }

  lemma InjectShape(s: State, t: State, owner: Address, pool: int, token: Token, quant: I64)
    requires CanInject(s, owner, pool, token, quant) && t == DoInject(s, owner, pool, token, quant).0
    requires s.pools[pool].first != s.pools[pool].second
    ensures t == s || Traded(s, t, owner, pool, token, quant, Paired(s.pools[pool], token, quant))
  {
  }

  lemma WithdrawShape(s: State, t: State, owner: Address, pool: int, token: Token, quant: I64)
    requires CanWithdrawPool(s, owner, pool, token, quant, true) && t == DoWithdrawPool(s, owner, pool, token, quant).0
    requires s.pools[pool].first != s.pools[pool].second
    ensures t == s || Traded(s, t, owner, pool, token, 0 - quant, 0 - Paired(s.pools[pool], token, quant))
  {
  }

  lemma SwapShape(s: State, t: State, owner: Address, pool: int, token: Token, quant: I64, bought: I64)
    requires OpenPool(s, owner, pool, token, quant) && t == DoSwap(s, owner, pool, token, quant, bought).0
    requires s.pools[pool].first != s.pools[pool].second
    ensures t == s || Traded(s, t, owner, pool, token, quant, 0 - bought)
  {
  }

  lemma InjectKeeps(s: State, t: State, owner: Address, pool: int, token: Token, quant: I64, void: set<int>)
    requires SupplyOk(s, void) && CanInject(s, owner, pool, token, quant)
    requires t == DoInject(s, owner, pool, token, quant).0
    ensures SupplyOk(t, void)
  {
    assert PoolKnown(s, s.pools[pool]);
    InjectShape(s, t, owner, pool, token, quant);
    if t != s {
      TradeKeeps(s, t, owner, pool, token, quant, Paired(s.pools[pool], token, quant), void);
    }
  }

  lemma WithdrawPoolKeeps(s: State, t: State, owner: Address, pool: int, token: Token, quant: I64, void: set<int>)
    requires SupplyOk(s, void) && CanWithdrawPool(s, owner, pool, token, quant, true)
    requires t == DoWithdrawPool(s, owner, pool, token, quant).0
    ensures SupplyOk(t, void)
  {
    assert PoolKnown(s, s.pools[pool]);
    WithdrawShape(s, t, owner, pool, token, quant);
    if t != s {
      TradeKeeps(s, t, owner, pool, token, 0 - quant, 0 - Paired(s.pools[pool], token, quant), void);
    }
  }

  lemma SwapKeeps(s: State, t: State, owner: Address, pool: int, token: Token, quant: I64, bought: I64, void: set<int>)
    requires SupplyOk(s, void) && OpenPool(s, owner, pool, token, quant)
    requires t == DoSwap(s, owner, pool, token, quant, bought).0
    ensures SupplyOk(t, void)
  {
    assert PoolKnown(s, s.pools[pool]);
    SwapShape(s, t, owner, pool, token, quant, bought);
    if t != s {
      TradeKeeps(s, t, owner, pool, token, quant, 0 - bought, void);
    }
  }

  ghost predicate PoolMade(s: State, t: State, owner: Address, paid: Account, x: Token, m: int, y: Token, n: int) {
    var e := s.latestExchange + 1;
    && owner in s.accounts && x != y
    && paid == s.accounts[owner].(balance := paid.balance)
    && (x.Trx? || AssetBalance(paid, x) != 0) && (y.Trx? || AssetBalance(paid, y) != 0)
    && t.accounts == s.accounts[owner := Pay(paid, x, m, y, n)]
    && t.latestExchange == e
    && t.pools == s.pools[e := Pool(owner, x, m, y, n)]
    && t.assets == s.assets && t.tokenIdNum == s.tokenIdNum
  }

  lemma CreatePoolShape(s: State, t: State, owner: Address, x: Token, m: I64, y: Token, n: I64)
    requires CanCreatePool(s, owner, x, m, y, n) && t == DoCreatePool(s, owner, x, m, y, n).0
    ensures var a := s.accounts[owner];
            t == s || PoolMade(s, t, owner, a.(balance := a.balance - s.exchangeFee), x, m, y, n)
  {
  }

  lemma CreatePoolKeeps(s: State, t: State, owner: Address, x: Token, m: I64, y: Token, n: I64, void: set<int>)
    requires SupplyOk(s, void) && CanCreatePool(s, owner, x, m, y, n) && t == DoCreatePool(s, owner, x, m, y, n).0
    ensures SupplyOk(t, void)
  {
    CreatePoolShape(s, t, owner, x, m, y, n);
    var a := s.accounts[owner];
    MadePoolKeeps(s, t, owner, a.(balance := a.balance - s.exchangeFee), x, m, y, n, void);
  }

  lemma MadePoolKeeps(s: State, t: State, owner: Address, paid: Account, x: Token, m: int, y: Token, n: int,
                      void: set<int>)
    requires SupplyOk(s, void) && (t == s || PoolMade(s, t, owner, paid, x, m, y, n))
    ensures SupplyOk(t, void)
  {
    if t != s {
      NewPoolKeeps(s, t, owner, paid, x, m, y, n, void);
    }
  }

  lemma NewPoolKeeps(s: State, t: State, owner: Address, paid: Account, x: Token, m: int, y: Token, n: int,
                     void: set<int>)
    requires SupplyOk(s, void) && PoolMade(s, t, owner, paid, x, m, y, n)
    ensures SupplyOk(t, void)
  {
    var e := s.latestExchange + 1;
    var a, p := s.accounts[owner], Pool(owner, x, m, y, n);
    assert AccountKnown(s, a);
    assert AccountKnown(s, paid);
    assert (x.Trx? || Known(s, x)) && (y.Trx? || Known(s, y));
    SetTokenKnown(s, paid, x, TokenBalance(paid, x) - m);
    SetTokenKnown(s, SetToken(paid, x, TokenBalance(paid, x) - m), y, TokenBalance(paid, y) - n);
    assert e !in s.pools;
    forall id | id in s.assets
      ensures AccountShare(Pay(paid, x, m, y, n), id) + PoolShare(p, id) == AccountShare(a, id)
    {
      PayShare(paid, x, m, y, n, id);
    }
    PoolStepKeeps(s, t, owner, Pay(paid, x, m, y, n), e, p, void);
  }

  // -- whole runs ---------------------------------------------------------

  /** An issue that passes validation and then fails on a maturity date. */
  predicate HalfIssues(s: State, tx: Tx) {
    tx.Issue? && CanIssue(s, tx.request) && !MaturitiesFit(tx.request)
  }

  function Voided(s: State, tx: Tx): set<int> {
    if HalfIssues(s, tx) then {s.tokenIdNum + 1} else {}
  }

  /** The ids registered by failed issues along a run. */
  function VoidedBy(s: State, txs: seq<Tx>): set<int> {
    if txs == [] then {}
    else VoidedBy(s, txs[..|txs| - 1]) + Voided(RunAll(s, txs[..|txs| - 1]), txs[|txs| - 1])
  }

  lemma StepKeeps(s: State, tx: Tx, void: set<int>)
    requires SupplyOk(s, void)
    ensures SupplyOk(Apply(s, tx).0, void + Voided(s, tx))
  {
    var t := Apply(s, tx).0;
    if HalfIssues(s, tx) {
      FailedIssueIsVoid(s, tx.request, void);
    } else {
      assert void + Voided(s, tx) == void;
      if Apply(s, tx).1 != Rejected {
        ExecutedKeeps(s, t, tx, void);
      }
    }
  }

  lemma ExecutedKeeps(s: State, t: State, tx: Tx, void: set<int>)
    requires SupplyOk(s, void) && !HalfIssues(s, tx) && t == Apply(s, tx).0 && Apply(s, tx).1 != Rejected
    ensures SupplyOk(t, void)
  {
    match tx
    case Issue(q) => IssueKeeps(s, q, void);
    case Transfer(owner, to, token, amount) => TransferKeeps(s, t, owner, to, token, amount, void);
    case Participate(owner, to, id, amount) => ParticipateKeeps(s, t, owner, to, id.value, amount, void);
    case Unfreeze(owner) => UnfreezeKeeps(s, owner, void);
    case CreatePool(owner, x, m, y, n) => CreatePoolKeeps(s, t, owner, x, m, y, n, void);
    case Inject(owner, pool, token, quant) => InjectKeeps(s, t, owner, pool, token, quant, void);
    case WithdrawPool(owner, pool, token, quant, precise) => WithdrawPoolKeeps(s, t, owner, pool, token, quant, void);
    case Swap(owner, pool, token, quant, expected, bought) => SwapKeeps(s, t, owner, pool, token, quant, bought, void);
    case Tick(time) => KnownStays(s, s.(now := time));
  }

  /**
   * Over every run, for every registered token: account holdings plus the issuer's frozen supply
   * plus pool balances equal the total supply, whatever the swap formula returns - or zero, from
   * its registration on, if its issue failed on a maturity date.
   */
  lemma {:induction false} RunConservesSupply(s: State, txs: seq<Tx>, void: set<int>)
    requires SupplyOk(s, void)
    ensures SupplyOk(RunAll(s, txs), void + VoidedBy(s, txs))
  {
    if txs == [] {
      assert void + {} == void;
    } else {
      var front, tx := txs[..|txs| - 1], txs[|txs| - 1];
      RunConservesSupply(s, front, void);
      StepKeeps(RunAll(s, front), tx, void + VoidedBy(s, front));
      assert void + VoidedBy(s, front) + Voided(RunAll(s, front), tx) == void + VoidedBy(s, txs);
    }
  }

  /** A chain on which nothing was issued yet is a good start. */
  lemma GenesisSupplyOk(s: State)
    requires s.assets == map[] && s.pools == map[]
    requires forall a | a in s.accounts ::
               s.accounts[a].assets == map[] && s.accounts[a].issued == None && s.accounts[a].frozenSupply == []
    ensures SupplyOk(s, {})
  {
  }
}
