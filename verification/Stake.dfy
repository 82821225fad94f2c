/**
 * Stake 2.0: freeze, unfreeze, withdraw, cancel, delegate and undelegate as one state
 * machine. A step is `validate` succeeding and then `execute`, as the executor runs them.
 */
module Stake {
  import opened Words

  type Address = seq<byte>

  const TRX_PRECISION: int := 1_000_000
  const BLOCK_PRODUCED_INTERVAL_MS: int := 3_000
  const DEFAULT_LOCK_BLOCKS: int := 3 * 86_400_000 / BLOCK_PRODUCED_INTERVAL_MS
  const FROZEN_PERIOD_MS: int := 86_400_000
  const UNFREEZE_MAX_TIMES: nat := 32
  const BANDWIDTH: int := 0
  const ENERGY: int := 1
  const TRON_POWER: int := 2

  // -- entities -----------------------------------------------------------

  datatype FreezeV2 = FreezeV2(kind: int, amount: int)
  datatype UnFreezeV2 = UnFreezeV2(kind: int, amount: int, expire: int)

  datatype Account = Account(
    balance: int,
    frozen: seq<FreezeV2>,
    unfrozen: seq<UnFreezeV2>,
    delegatedBandwidth: int, delegatedEnergy: int,
    acquiredBandwidth: int, acquiredEnergy: int,
    isContract: bool)

  datatype Key = Key(owner: Address, receiver: Address, lock: bool)

  datatype Record = Record(bandwidth: int, energy: int, expireBandwidth: int, expireEnergy: int)

  datatype Ledger = Ledger(
    accounts: map<Address, Account>,
    records: map<Key, Record>,
    now: int,
    delayDays: int,
    allowTronPower: bool,
    allowCancel: bool)

  datatype Outcome = Done | Rejected | Failed

  // -- per-resource fields ------------------------------------------------

  function Delegated(a: Account, r: int): int {
    if r == BANDWIDTH then a.delegatedBandwidth else a.delegatedEnergy
  }

  function AddDelegated(a: Account, r: int, delta: int): Account {
    if r == BANDWIDTH then a.(delegatedBandwidth := a.delegatedBandwidth + delta)
    else a.(delegatedEnergy := a.delegatedEnergy + delta)
  }

  function Acquired(a: Account, r: int): int {
    if r == BANDWIDTH then a.acquiredBandwidth else a.acquiredEnergy
  }

  /** `add_receiver_acquired`, with its floor at zero. */
  function AddAcquired(a: Account, r: int, delta: int): Account {
    var cur := Acquired(a, r);
    var next := if delta < 0 && cur < -delta then 0 else cur + delta;
    if r == BANDWIDTH then a.(acquiredBandwidth := next) else a.(acquiredEnergy := next)
  }

  function Frozen(rec: Record, r: int): int {
    if r == BANDWIDTH then rec.bandwidth else rec.energy
  }

  function SetFrozen(rec: Record, r: int, v: int): Record {
    if r == BANDWIDTH then rec.(bandwidth := v) else rec.(energy := v)
  }

  function Expire(rec: Record, r: int): int {
    if r == BANDWIDTH then rec.expireBandwidth else rec.expireEnergy
  }

  function SetExpire(rec: Record, r: int, v: int): Record {
    if r == BANDWIDTH then rec.(expireBandwidth := v) else rec.(expireEnergy := v)
  }

  predicate IsEmpty(rec: Record) {
    rec.bandwidth == 0 && rec.energy == 0
  }

  const NoRecord: Record := Record(0, 0, 0, 0)

  function RecordAt(records: map<Key, Record>, k: Key): Record {
    if k in records then records[k] else NoRecord
  }

  /** Store a record, or delete it when nothing is left in it. */
  function PutOrDelete(records: map<Key, Record>, k: Key, rec: Record): map<Key, Record> {
    if IsEmpty(rec) then records - {k} else records[k := rec]
  }

  // -- frozen and unfrozen lists ------------------------------------------

  /** Position of the first entry of `kind`, or the length when there is none. */
  function Find(fs: seq<FreezeV2>, kind: int): (i: nat)
    ensures i <= |fs|
    ensures i < |fs| ==> fs[i].kind == kind
    ensures forall j | 0 <= j < i :: fs[j].kind != kind
  {
    if fs == [] then 0
    else if fs[0].kind == kind then 0
    else 1 + Find(fs[1..], kind)
  }

  /** Amount of the first entry of `kind` (`frozen_amount`). */
  function FrozenAmount(fs: seq<FreezeV2>, kind: int): int {
    var i := Find(fs, kind);
    if i < |fs| then fs[i].amount else 0
  }

  /** Total over all entries of `kind` (`frozen_v2_amount`). */
  function FrozenTotal(fs: seq<FreezeV2>, kind: int): int {
    if fs == [] then 0
    else
      var rest := FrozenTotal(fs[..|fs| - 1], kind);
      if fs[|fs| - 1].kind == kind then SaturatingAdd64(rest, fs[|fs| - 1].amount) else rest
  }

  predicate HasFrozen(fs: seq<FreezeV2>, kind: int) {
    fs != [] && ((fs[0].kind == kind && fs[0].amount > 0) || HasFrozen(fs[1..], kind))
  }

  function AddFrozen(fs: seq<FreezeV2>, kind: int, delta: int): seq<FreezeV2> {
    var i := Find(fs, kind);
    if i < |fs| then fs[i := FreezeV2(kind, fs[i].amount + delta)] else fs + [FreezeV2(kind, delta)]
  }

  /** Entries that have not matured at `now`. */
  function Pending(us: seq<UnFreezeV2>, now: int): seq<UnFreezeV2> {
    if us == [] then []
    else
      var rest := Pending(us[..|us| - 1], now);
      if us[|us| - 1].expire > now then rest + [us[|us| - 1]] else rest
  }

  function MaturedTotal(us: seq<UnFreezeV2>, now: int): int {
    if us == [] then 0
    else MaturedTotal(us[..|us| - 1], now) + if us[|us| - 1].expire <= now then us[|us| - 1].amount else 0
  }

  /** Return every entry of `us` to the frozen list, in order. */
  function Refreeze(fs: seq<FreezeV2>, us: seq<UnFreezeV2>): seq<FreezeV2> {
    if us == [] then fs
    else AddFrozen(Refreeze(fs, us[..|us| - 1]), us[|us| - 1].kind, us[|us| - 1].amount)
  }

  // -- transactions -------------------------------------------------------

  datatype Tx =
    | Freeze(owner: Address, amount: int, resource: int)
    | Unfreeze(owner: Address, amount: int, resource: int)
    | Withdraw(owner: Address)
    | CancelAll(owner: Address)
    | Delegate(owner: Address, receiver: Address, resource: int, amount: int, lock: bool, lockPeriod: int)
    | Undelegate(owner: Address, receiver: Address, resource: int, amount: int)
    | Tick(time: int)

  predicate StakeResource(s: Ledger, r: int) {
    r == BANDWIDTH || r == ENERGY || (r == TRON_POWER && s.allowTronPower)
  }

  predicate DelegateResource(r: int) {
    r == BANDWIDTH || r == ENERGY
  }

  function LockBlocks(lockPeriod: int): int {
    if lockPeriod == 0 then DEFAULT_LOCK_BLOCKS else lockPeriod
  }

  function DelayMs(s: Ledger): int {
    (if s.delayDays > 0 then s.delayDays else 14) * FROZEN_PERIOD_MS
  }

  // -- validate -----------------------------------------------------------

  predicate CanFreeze(s: Ledger, owner: Address, amount: int, r: int) {
    && s.delayDays > 0
    && owner in s.accounts
    && amount > 0 && amount >= TRX_PRECISION && amount <= s.accounts[owner].balance
    && StakeResource(s, r)
  }

  predicate CanUnfreeze(s: Ledger, owner: Address, amount: int, r: int) {
    && s.delayDays > 0
    && owner in s.accounts
    && StakeResource(s, r)
    && var a := s.accounts[owner];
    && HasFrozen(a.frozen, r)
    && 0 < amount <= FrozenAmount(a.frozen, r)
    && |Pending(a.unfrozen, s.now)| < UNFREEZE_MAX_TIMES
  }

  predicate CanWithdraw(s: Ledger, owner: Address) {
    owner in s.accounts && MaturedTotal(s.accounts[owner].unfrozen, s.now) > 0
  }

  predicate CanCancel(s: Ledger, owner: Address) {
    s.allowCancel && owner in s.accounts && s.accounts[owner].unfrozen != []
  }

  predicate CanDelegate(s: Ledger, owner: Address, receiver: Address, r: int, amount: int, lock: bool,
                        lockPeriod: int) {
    && owner in s.accounts
    && amount >= TRX_PRECISION
    && DelegateResource(r)
    && FrozenTotal(s.accounts[owner].frozen, r) >= amount
    && receiver != owner
    && receiver in s.accounts
    && (lock ==>
          && LockBlocks(lockPeriod) >= 0
          && (Key(owner, receiver, true) in s.records ==>
                LockBlocks(lockPeriod) * BLOCK_PRODUCED_INTERVAL_MS
                >= Expire(s.records[Key(owner, receiver, true)], r) - s.now))
    && !s.accounts[receiver].isContract
  }

  /** What undelegate's `validate` counts as available. */
  function Available(s: Ledger, owner: Address, receiver: Address, r: int): int {
    var unlocked := RecordAt(s.records, Key(owner, receiver, false));
    var locked := RecordAt(s.records, Key(owner, receiver, true));
    Frozen(unlocked, r) +
    if Key(owner, receiver, true) in s.records && Expire(locked, r) < s.now then Frozen(locked, r) else 0
  }

  predicate CanUndelegate(s: Ledger, owner: Address, receiver: Address, r: int, amount: int) {
    && owner in s.accounts
    && receiver != owner
    && (Key(owner, receiver, false) in s.records || Key(owner, receiver, true) in s.records)
    && amount > 0
    && DelegateResource(r)
    && amount <= Available(s, owner, receiver, r)
  }

  // -- execute ------------------------------------------------------------

  function PutAccount(s: Ledger, a: Address, acc: Account): Ledger {
    s.(accounts := s.accounts[a := acc])
  }

  function AfterFreeze(a: Account, amount: int, r: int): Account {
    a.(balance := a.balance - amount, frozen := AddFrozen(a.frozen, r, amount))
  }

  function DoFreeze(s: Ledger, owner: Address, amount: int, r: int): (Ledger, Outcome)
    requires CanFreeze(s, owner, amount, r)
  {
    var a := s.accounts[owner];
    if Find(a.frozen, r) < |a.frozen| && !FitsI64(FrozenAmount(a.frozen, r) + amount) then (s, Failed)
    else (PutAccount(s, owner, AfterFreeze(a, amount, r)), Done)
  }

  function AfterUnfreeze(a: Account, amount: int, r: int, expire: int): Account {
    a.(frozen := AddFrozen(a.frozen, r, -amount), unfrozen := a.unfrozen + [UnFreezeV2(r, amount, expire)])
  }

  function DoUnfreeze(s: Ledger, owner: Address, amount: int, r: int): (Ledger, Outcome)
    requires CanUnfreeze(s, owner, amount, r)
  {
    if !FitsI64(DelayMs(s)) || !FitsI64(s.now + DelayMs(s)) then (s, Failed)
    else (PutAccount(s, owner, AfterUnfreeze(s.accounts[owner], amount, r, s.now + DelayMs(s))), Done)
  }

  function AfterWithdraw(a: Account, now: int): Account {
    a.(balance := a.balance + MaturedTotal(a.unfrozen, now), unfrozen := Pending(a.unfrozen, now))
  }

  function DoWithdraw(s: Ledger, owner: Address): (Ledger, Outcome)
    requires CanWithdraw(s, owner)
  {
    var a' := AfterWithdraw(s.accounts[owner], s.now);
    if !FitsI64(a'.balance) then (s, Failed) else (PutAccount(s, owner, a'), Done)
  }

  function AfterCancel(a: Account, now: int): Account {
    a.(balance := a.balance + MaturedTotal(a.unfrozen, now),
       frozen := Refreeze(a.frozen, Pending(a.unfrozen, now)),
       unfrozen := [])
  }

  function DoCancel(s: Ledger, owner: Address): (Ledger, Outcome)
    requires CanCancel(s, owner)
  {
    var a' := AfterCancel(s.accounts[owner], s.now);
    if !FitsI64(a'.balance) then (s, Failed) else (PutAccount(s, owner, a'), Done)
  }

  /** Move `delta` of `r` from the owner's frozen balance to its delegated balance. */
  function MoveToDelegated(o: Account, r: int, delta: int): Account {
    AddDelegated(o.(frozen := AddFrozen(o.frozen, r, -delta)), r, delta)
  }

  function DoDelegate(s: Ledger, owner: Address, receiver: Address, r: int, amount: int, lock: bool, lockPeriod: int)
    : (Ledger, Outcome)
    requires CanDelegate(s, owner, receiver, r, amount, lock, lockPeriod)
  {
    var s1 := PutAccount(s, owner, MoveToDelegated(s.accounts[owner], r, amount));
    var s2 := PutAccount(s1, receiver, AddAcquired(s1.accounts[receiver], r, amount));
    var key := Key(owner, receiver, lock);
    var expire := if lock then s.now + LockBlocks(lockPeriod) * BLOCK_PRODUCED_INTERVAL_MS else 0;
    var rec := RecordAt(s.records, key);
    var rec' := SetExpire(SetFrozen(rec, r, Frozen(rec, r) + amount), r, expire);
    (s2.(records := s2.records[key := rec']), Done)
  }

  /** `merge_expired_lock`: fold an expired locked balance into the unlocked record. */
  function MergeExpired(records: map<Key, Record>, owner: Address, receiver: Address, r: int,
                        now: int): map<Key, Record> {
    var lk, uk := Key(owner, receiver, true), Key(owner, receiver, false);
    if lk !in records then records
    else
      var locked := records[lk];
      if Frozen(locked, r) == 0 || Expire(locked, r) == 0 || Expire(locked, r) >= now then records
      else
        var u := RecordAt(records, uk);
        var merged := records[uk := SetFrozen(u, r, Frozen(u, r) + Frozen(locked, r))];
        PutOrDelete(merged, lk, SetExpire(SetFrozen(locked, r, 0), r, 0))
  }

  function DoUndelegate(s: Ledger, owner: Address, receiver: Address, r: int, amount: int): (Ledger, Outcome)
    requires CanUndelegate(s, owner, receiver, r, amount)
  {
    var uk := Key(owner, receiver, false);
    var s1 := s.(records := MergeExpired(s.records, owner, receiver, r, s.now));
    var s2 := if receiver in s1.accounts
              then PutAccount(s1, receiver, AddAcquired(s1.accounts[receiver], r, -amount)) else s1;
    if uk !in s2.records then (s2, Failed)
    else
      var u := s2.records[uk];
      var s3 := s2.(records := PutOrDelete(s2.records, uk, SetFrozen(u, r, Frozen(u, r) - amount)));
      (PutAccount(s3, owner, MoveToDelegated(s3.accounts[owner], r, -amount)), Done)
  }

  /** One transaction: rejected by `validate`, or executed. Time never goes back. */
  function Apply(s: Ledger, tx: Tx): (Ledger, Outcome) {
    match tx
    case Freeze(owner, amount, r) =>
      if CanFreeze(s, owner, amount, r) then DoFreeze(s, owner, amount, r) else (s, Rejected)
    case Unfreeze(owner, amount, r) =>
      if CanUnfreeze(s, owner, amount, r) then DoUnfreeze(s, owner, amount, r) else (s, Rejected)
    case Withdraw(owner) =>
      if CanWithdraw(s, owner) then DoWithdraw(s, owner) else (s, Rejected)
    case CancelAll(owner) =>
      if CanCancel(s, owner) then DoCancel(s, owner) else (s, Rejected)
    case Delegate(owner, receiver, r, amount, lock, period) =>
      if CanDelegate(s, owner, receiver, r, amount, lock, period)
      then DoDelegate(s, owner, receiver, r, amount, lock, period) else (s, Rejected)
    case Undelegate(owner, receiver, r, amount) =>
      if CanUndelegate(s, owner, receiver, r, amount)
      then DoUndelegate(s, owner, receiver, r, amount) else (s, Rejected)
    case Tick(time) => if s.now <= time then (s.(now := time), Done) else (s, Rejected)
  }

  function RunAll(s: Ledger, txs: seq<Tx>): Ledger {
    if txs == [] then s else Apply(RunAll(s, txs[..|txs| - 1]), txs[|txs| - 1]).0
  }
}
