/**
 * TRC10 tokens and exchange pools: issue, transfer, participate, unfreeze, and pool create,
 * inject, withdraw and swap, as one state machine of validated and executed transactions.
 */
module Tokens {
  import opened Words
  import opened Arithmetic

  type Address = seq<byte>

  const TOKEN_ID_BASE: int := 1_000_000
  const DEFAULT_ASSET_ISSUE_FEE: nat := 1_024_000_000
  const MAX_FROZEN_SUPPLY_NUMBER: nat := 10
  const MIN_FROZEN_SUPPLY_TIME: int := 1
  const MAX_FROZEN_SUPPLY_TIME: int := 3652
  const FROZEN_PERIOD_MS: int := 86_400_000

  // -- entities -----------------------------------------------------------

  /** A token key: TRX, a TRC10 id in its canonical decimal form, or any other text. */
  datatype Token = Trx | Trc10(id: int) | Named(text: string)

  /** `is_trx` or `is_number`. */
  predicate WellNamed(t: Token) {
    t.Trx? || (t.Trc10? && t.id >= 0)
  }

  datatype Lot = Lot(amount: int, expire: int)

  datatype Account = Account(balance: int, assets: map<Token, int>, issued: Option<int>, frozenSupply: seq<Lot>)

  const NewAccount: Account := Account(0, map[], None, [])

  datatype Asset = Asset(owner: Address, totalSupply: int, num: int, trxNum: int, start: int, end: int)

  datatype Pool = Pool(creator: Address, first: Token, firstBalance: int, second: Token, secondBalance: int)

  datatype State = State(
    accounts: map<Address, Account>,
    assets: map<int, Asset>,
    tokenIdNum: int,
    pools: map<int, Pool>,
    latestExchange: int,
    burned: int,
    now: int,
    issueFee: nat, accountFee: nat, exchangeFee: nat, poolLimit: int)

  datatype Outcome = Done | Rejected | Failed

  datatype FrozenLot = FrozenLot(amount: I64, days: I64)

  /** An issue request; `textOk` is the verdict on names, urls and net limits. */
  datatype IssueRequest = IssueRequest(
    owner: Address, textOk: bool, totalSupply: I64, num: I64, trxNum: I64, start: I64, end: I64,
    frozen: seq<FrozenLot>)

  datatype Tx =
    | Issue(request: IssueRequest)
    | Transfer(owner: Address, to: Address, token: Token, amount: I64)
    | Participate(owner: Address, to: Address, assetId: Option<int>, amount: I64)
    | Unfreeze(owner: Address)
    | CreatePool(owner: Address, first: Token, firstBalance: I64, second: Token, secondBalance: I64)
    | Inject(owner: Address, pool: int, token: Token, quant: I64)
    | WithdrawPool(owner: Address, pool: int, token: Token, quant: I64, precise: bool)
    | Swap(owner: Address, pool: int, token: Token, quant: I64, expected: I64, bought: I64)
    | Tick(time: I64)

  // -- balances -----------------------------------------------------------

  function AssetBalance(a: Account, t: Token): int {
    if t in a.assets then a.assets[t] else 0
  }

  function TokenBalance(a: Account, t: Token): int {
    if t.Trx? then a.balance else AssetBalance(a, t)
  }

  function SetToken(a: Account, t: Token, v: int): Account {
    if t.Trx? then a.(balance := v) else a.(assets := a.assets[t := v])
  }

  /** `debit_token`: fails when the result would be negative. */
  function Debit(a: Account, t: Token, amount: int): Option<Account> {
    var v := TokenBalance(a, t) - amount;
    if FitsI64(v) && v >= 0 then Some(SetToken(a, t, v)) else None
  }

  /** `credit_token`: fails on overflow. */
  function Credit(a: Account, t: Token, amount: int): Option<Account> {
    var v := TokenBalance(a, t) + amount;
    if FitsI64(v) then Some(SetToken(a, t, v)) else None
  }

  function PutAccount(s: State, a: Address, acc: Account): State {
    s.(accounts := s.accounts[a := acc])
  }

  // -- issue --------------------------------------------------------------

  function LotTotal(lots: seq<FrozenLot>): int {
    if lots == [] then 0 else LotTotal(lots[..|lots| - 1]) + lots[|lots| - 1].amount
  }

  /** The validation loop: positive lots that fit the remaining supply, with legal durations. */
  predicate LotsOk(lots: seq<FrozenLot>, supply: int) {
    lots == [] ||
    var front, f := lots[..|lots| - 1], lots[|lots| - 1];
    && LotsOk(front, supply)
    && f.amount > 0 && f.amount <= supply - LotTotal(front)
    && MIN_FROZEN_SUPPLY_TIME <= f.days <= MAX_FROZEN_SUPPLY_TIME
  }

  predicate CanIssue(s: State, q: IssueRequest) {
    && q.textOk
    && q.start != 0 && q.end != 0 && q.end > q.start && q.start > s.now
    && q.totalSupply > 0 && q.trxNum > 0 && q.num > 0
    && |q.frozen| <= MAX_FROZEN_SUPPLY_NUMBER
    && LotsOk(q.frozen, q.totalSupply)
    && q.owner in s.accounts
    && s.accounts[q.owner].issued == None
    && s.accounts[q.owner].balance >= s.issueFee
  }

  function Maturity(q: IssueRequest, f: FrozenLot): int {
    q.start + f.days * FROZEN_PERIOD_MS
  }

  /** Every lot's maturity date fits in `i64`. */
  predicate MaturitiesFit(q: IssueRequest) {
    forall i | 0 <= i < |q.frozen| :: FitsI64(Maturity(q, q.frozen[i]))
  }

  function LotsOf(q: IssueRequest, lots: seq<FrozenLot>): seq<Lot> {
    if lots == [] then []
    else LotsOf(q, lots[..|lots| - 1]) + [Lot(lots[|lots| - 1].amount, Maturity(q, lots[|lots| - 1]))]
  }

  /** The counter, the definition and the burned fee are written before the supply is split. */
  function RegisterAsset(s: State, q: IssueRequest): State {
    var id := s.tokenIdNum + 1;
    s.(tokenIdNum := id,
       assets := s.assets[id := Asset(q.owner, q.totalSupply, q.num, q.trxNum, q.start, q.end)],
       burned := SaturatingAdd64(s.burned, s.issueFee))
  }

  function IssuerAfter(a: Account, q: IssueRequest, id: int, fee: nat): Account {
    Account(a.balance - fee, a.assets[Trc10(id) := q.totalSupply - LotTotal(q.frozen)],
            Some(id), a.frozenSupply + LotsOf(q, q.frozen))
  }

  function DoIssue(s: State, q: IssueRequest): (State, Outcome)
    requires CanIssue(s, q)
  {
    var s1 := RegisterAsset(s, q);
    if !MaturitiesFit(q) then (s1, Failed)
    else (PutAccount(s1, q.owner, IssuerAfter(s.accounts[q.owner], q, s.tokenIdNum + 1, s.issueFee)), Done)
  }

  // -- transfer -----------------------------------------------------------

  predicate CanTransfer(s: State, owner: Address, to: Address, t: Token, amount: I64) {
    && amount > 0
    && owner != to
    && owner in s.accounts
    && AssetBalance(s.accounts[owner], t) > 0
    && amount <= AssetBalance(s.accounts[owner], t)
    && (to in s.accounts && t in s.accounts[to].assets ==> FitsI64(s.accounts[to].assets[t] + amount))
    && (to !in s.accounts ==> s.accounts[owner].balance >= s.accountFee)
  }

  /** Creates the target if needed, debits, charges the fee, credits, burns the fee. */
  function DoTransfer(s: State, owner: Address, to: Address, t: Token, amount: I64): (State, Outcome)
    requires CanTransfer(s, owner, to, t, amount)
  {
    var fee := if to in s.accounts then 0 else s.accountFee;
    var s1 := if to in s.accounts then s else PutAccount(s, to, NewAccount);
    var o := s1.accounts[owner];
    if !FitsI64(o.balance - fee) || o.balance - fee < 0 then (s1, Failed)
    else
      var s2 := PutAccount(s1, owner,
                           o.(assets := o.assets[t := AssetBalance(o, t) - amount], balance := o.balance - fee));
      var d := s2.accounts[to];
      if !FitsI64(AssetBalance(d, t) + amount) then (s2, Failed)
      else
        var s3 := PutAccount(s2, to, d.(assets := d.assets[t := AssetBalance(d, t) + amount]));
        (s3.(burned := SaturatingAdd64(s.burned, fee)), Done)
  }

  // -- participate --------------------------------------------------------

  /** `amount * num / trx_num`, rounded towards zero. */
  function ExchangeAmount(amount: int, num: int, trxNum: int): int {
    if trxNum == 0 then 0 else Truncated(amount * num, trxNum)
  }

  predicate CanParticipate(s: State, owner: Address, to: Address, assetId: Option<int>, amount: I64) {
    && amount > 0
    && owner != to
    && owner in s.accounts && s.accounts[owner].balance >= amount
    && assetId.Some? && assetId.value in s.assets
    && var asset := s.assets[assetId.value];
    && asset.owner == to
    && asset.start <= s.now < asset.end
    && var got := ExchangeAmount(amount, asset.num, asset.trxNum);
    && FitsI64(got) && got > 0
    && to in s.accounts && AssetBalance(s.accounts[to], Trc10(assetId.value)) >= got
  }

  function DoParticipate(s: State, owner: Address, to: Address, id: int, amount: I64): (State, Outcome)
    requires CanParticipate(s, owner, to, Some(id), amount)
  {
    var got := ExchangeAmount(amount, s.assets[id].num, s.assets[id].trxNum);
    var o, d := s.accounts[owner], s.accounts[to];
    var t := Trc10(id);
    if !FitsI64(AssetBalance(o, t) + got) || !FitsI64(d.balance + amount) then (s, Failed)
    else
      (PutAccount(
         PutAccount(s, owner, o.(balance := o.balance - amount, assets := o.assets[t := AssetBalance(o, t) + got])),
         to, d.(balance := d.balance + amount, assets := d.assets[t := AssetBalance(d, t) - got])),
       Done)
  }

  // -- unfreeze -----------------------------------------------------------

  function MaturedTotal(lots: seq<Lot>, now: int): int {
    if lots == [] then 0
    else MaturedTotal(lots[..|lots| - 1], now) + if lots[|lots| - 1].expire <= now then lots[|lots| - 1].amount else 0
  }

  function Remaining(lots: seq<Lot>, now: int): seq<Lot> {
    if lots == [] then []
    else
      var rest := Remaining(lots[..|lots| - 1], now);
      if lots[|lots| - 1].expire <= now then rest else rest + [lots[|lots| - 1]]
  }

  predicate AnyMatured(lots: seq<Lot>, now: int) {
    exists i | 0 <= i < |lots| :: lots[i].expire <= now
  }

  predicate CanUnfreeze(s: State, owner: Address) {
    && owner in s.accounts
    && s.accounts[owner].issued.Some?
    && AnyMatured(s.accounts[owner].frozenSupply, s.now)
  }

  /** The running sum of matured lots never leaves `i64`. */
  predicate SumFits(lots: seq<Lot>, now: int) {
    lots == [] || (SumFits(lots[..|lots| - 1], now) && FitsI64(MaturedTotal(lots, now)))
  }

  function DoUnfreeze(s: State, owner: Address): (State, Outcome)
    requires CanUnfreeze(s, owner)
  {
    var a := s.accounts[owner];
    var t := Trc10(a.issued.value);
    var sum := AssetBalance(a, t) + MaturedTotal(a.frozenSupply, s.now);
    if !SumFits(a.frozenSupply, s.now) || !FitsI64(sum) then (s, Failed)
    else
      var left := Remaining(a.frozenSupply, s.now);
      (PutAccount(s, owner, a.(assets := a.assets[t := sum], frozenSupply := left)), Done)
  }

  // -- pools --------------------------------------------------------------

  predicate CanCreatePool(s: State, owner: Address, t: Token, x: I64, u: Token, y: I64) {
    && owner in s.accounts
    && var a := s.accounts[owner];
    && a.balance >= s.exchangeFee
    && WellNamed(t) && WellNamed(u) && t != u
    && 0 < x <= s.poolLimit && 0 < y <= s.poolLimit
    && (if t.Trx? then a.balance >= x + s.exchangeFee else AssetBalance(a, t) >= x)
    && (if u.Trx? then a.balance >= y + s.exchangeFee else AssetBalance(a, u) >= y)
  }

  function DoCreatePool(s: State, owner: Address, t: Token, x: I64, u: Token, y: I64): (State, Outcome)
    requires CanCreatePool(s, owner, t, x, u, y)
  {
    var a := s.accounts[owner];
    var paid := a.(balance := a.balance - s.exchangeFee);
    var d1 := Debit(paid, t, x);
    if d1.None? then (s, Failed)
    else
      var d2 := Debit(d1.value, u, y);
      if d2.None? then (s, Failed)
      else
        var id := s.latestExchange + 1;
        (PutAccount(s, owner, d2.value).(
           burned := SaturatingAdd64(s.burned, s.exchangeFee),
           pools := s.pools[id := Pool(owner, t, x, u, y)],
           latestExchange := id),
         Done)
  }

  /** `other * quant / this`, rounded towards zero. */
  function Proportional(other: int, quant: int, this_: int): int {
    if this_ == 0 then 0 else Truncated(other * quant, this_)
  }

  function Side(p: Pool, t: Token): int {
    if t == p.first then p.firstBalance else p.secondBalance
  }

  function OtherSide(p: Pool, t: Token): int {
    if t == p.first then p.secondBalance else p.firstBalance
  }

  function OtherToken(p: Pool, t: Token): Token {
    if t == p.first then p.second else p.first
  }

  /** Add `x` to the side of `t` and `y` to the other side. */
  function Shift(p: Pool, t: Token, x: int, y: int): Pool {
    if t == p.first then p.(firstBalance := p.firstBalance + x, secondBalance := p.secondBalance + y)
    else p.(secondBalance := p.secondBalance + x, firstBalance := p.firstBalance + y)
  }

  /** The paired amount of an inject or withdraw of `quant`. */
  function Paired(p: Pool, t: Token, quant: int): int {
    Proportional(OtherSide(p, t), quant, Side(p, t))
  }

  predicate OpenPool(s: State, owner: Address, pool: int, t: Token, quant: int) {
    && owner in s.accounts && s.accounts[owner].balance >= 0
    && pool in s.pools
    && WellNamed(t)
    && (t == s.pools[pool].first || t == s.pools[pool].second)
    && s.pools[pool].firstBalance != 0 && s.pools[pool].secondBalance != 0
    && quant > 0
  }

  predicate CanInject(s: State, owner: Address, pool: int, t: Token, quant: I64) {
    && OpenPool(s, owner, pool, t, quant)
    && var p, a := s.pools[pool], s.accounts[owner];
    && p.creator == owner
    && var another := Paired(p, t, quant);
    && FitsI64(another) && another > 0
    && Side(p, t) + quant <= s.poolLimit && OtherSide(p, t) + another <= s.poolLimit
    && TokenBalance(a, t) >= quant
    && TokenBalance(a, OtherToken(p, t)) >= another
  }

  function DoInject(s: State, owner: Address, pool: int, t: Token, quant: I64): (State, Outcome)
    requires CanInject(s, owner, pool, t, quant)
  {
    var p := s.pools[pool];
    var another := Paired(p, t, quant);
    var d1 := Debit(s.accounts[owner], t, quant);
    if d1.None? then (s, Failed)
    else
      var d2 := Debit(d1.value, OtherToken(p, t), another);
      if d2.None? then (s, Failed)
      else (PutAccount(s, owner, d2.value).(pools := s.pools[pool := Shift(p, t, quant, another)]), Done)
  }

  /** `precise` is the verdict of the floating-point precision check. */
  predicate CanWithdrawPool(s: State, owner: Address, pool: int, t: Token, quant: I64, precise: bool) {
    && OpenPool(s, owner, pool, t, quant)
    && var p := s.pools[pool];
    && p.creator == owner
    && var another := Paired(p, t, quant);
    && FitsI64(another)
    && Side(p, t) >= quant && OtherSide(p, t) >= another
    && another > 0
    && precise
  }

  function DoWithdrawPool(s: State, owner: Address, pool: int, t: Token, quant: I64): (State, Outcome)
    requires CanWithdrawPool(s, owner, pool, t, quant, true)
  {
    var p := s.pools[pool];
    var another := Paired(p, t, quant);
    var c1 := Credit(s.accounts[owner], t, quant);
    if c1.None? then (s, Failed)
    else
      var c2 := Credit(c1.value, OtherToken(p, t), another);
      if c2.None? then (s, Failed)
      else (PutAccount(s, owner, c2.value).(pools := s.pools[pool := Shift(p, t, 0 - quant, 0 - another)]), Done)
  }

  /** `bought` stands for whatever the floating-point swap formula returns. */
  predicate CanSwap(s: State, owner: Address, pool: int, t: Token, quant: I64, expected: I64, bought: I64) {
    && OpenPool(s, owner, pool, t, quant)
    && expected > 0
    && Side(s.pools[pool], t) + quant <= s.poolLimit
    && TokenBalance(s.accounts[owner], t) >= quant
    && bought >= expected
  }

  function DoSwap(s: State, owner: Address, pool: int, t: Token, quant: I64, bought: I64): (State, Outcome)
    requires OpenPool(s, owner, pool, t, quant)
  {
    var p := s.pools[pool];
    var d := Debit(s.accounts[owner], t, quant);
    if d.None? then (s, Failed)
    else
      var c := Credit(d.value, OtherToken(p, t), bought);
      if c.None? then (s, Failed)
      else (PutAccount(s, owner, c.value).(pools := s.pools[pool := Shift(p, t, quant, 0 - bought)]), Done)
  }

  // -- transactions -------------------------------------------------------

  function Apply(s: State, tx: Tx): (State, Outcome) {
    match tx
    case Issue(q) => if CanIssue(s, q) then DoIssue(s, q) else (s, Rejected)
    case Transfer(owner, to, t, amount) =>
      if CanTransfer(s, owner, to, t, amount) then DoTransfer(s, owner, to, t, amount) else (s, Rejected)
    case Participate(owner, to, id, amount) =>
      if CanParticipate(s, owner, to, id, amount) then DoParticipate(s, owner, to, id.value, amount) else (s, Rejected)
    case Unfreeze(owner) => if CanUnfreeze(s, owner) then DoUnfreeze(s, owner) else (s, Rejected)
    case CreatePool(owner, t, x, u, y) =>
      if CanCreatePool(s, owner, t, x, u, y) then DoCreatePool(s, owner, t, x, u, y) else (s, Rejected)
    case Inject(owner, pool, t, quant) =>
      if CanInject(s, owner, pool, t, quant) then DoInject(s, owner, pool, t, quant) else (s, Rejected)
    case WithdrawPool(owner, pool, t, quant, precise) =>
      if CanWithdrawPool(s, owner, pool, t, quant, precise)
      then DoWithdrawPool(s, owner, pool, t, quant) else (s, Rejected)
    case Swap(owner, pool, t, quant, expected, bought) =>
      if CanSwap(s, owner, pool, t, quant, expected, bought)
      then DoSwap(s, owner, pool, t, quant, bought) else (s, Rejected)
    case Tick(time) => (s.(now := time), Done)
  }

  function RunAll(s: State, txs: seq<Tx>): State {
    if txs == [] then s else Apply(RunAll(s, txs[..|txs| - 1]), txs[|txs| - 1]).0
  }
}
