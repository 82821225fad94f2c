/** The Stake 2.0 actuators as they run: account and delegation records updated in place. */
module StakeStore {
  import opened Words
  import opened Stake

  class Store {
    var accounts: map<Address, Account>
    var records: map<Key, Record>
    var now: int
    const delayDays: int
    const allowTronPower: bool
    const allowCancel: bool

    ghost function View(): Ledger
      reads this
    {
      Ledger(accounts, records, now, delayDays, allowTronPower, allowCancel)
    }

    constructor (s: Ledger)
      ensures View() == s
    {
      accounts, records, now := s.accounts, s.records, s.now;
      delayDays, allowTronPower, allowCancel := s.delayDays, s.allowTronPower, s.allowCancel;
    }

    method FreezeBalance(owner: Address, amount: int, resource: int) returns (outcome: Outcome)
      modifies this`accounts
      ensures (View(), outcome) == Apply(old(View()), Freeze(owner, amount, resource))
    {
      if delayDays <= 0 || owner !in accounts { return Rejected; }
      var account := accounts[owner];
      if amount <= 0 || amount < TRX_PRECISION || amount > account.balance { return Rejected; }
      if !(resource == BANDWIDTH || resource == ENERGY || (resource == TRON_POWER && allowTronPower)) {
        return Rejected;
      }
      var balance := account.balance - amount;
      var i := Find(account.frozen, resource);
      if i < |account.frozen| {
        var sum := account.frozen[i].amount + amount;
        if !FitsI64(sum) { return Failed; }
        account := account.(frozen := account.frozen[i := FreezeV2(resource, sum)]);
      } else {
        account := account.(frozen := account.frozen + [FreezeV2(resource, amount)]);
      }
      accounts := accounts[owner := account.(balance := balance)];
      outcome := Done;
    }

    method UnfreezeBalance(owner: Address, amount: int, resource: int) returns (outcome: Outcome)
      modifies this`accounts
      ensures (View(), outcome) == Apply(old(View()), Unfreeze(owner, amount, resource))
    {
      if delayDays <= 0 || owner !in accounts { return Rejected; }
      var account := accounts[owner];
      if !(resource == BANDWIDTH || resource == ENERGY || (resource == TRON_POWER && allowTronPower)) {
        return Rejected;
      }
      if !HasFrozen(account.frozen, resource) { return Rejected; }
      if !(0 < amount <= FrozenAmount(account.frozen, resource)) { return Rejected; }
      if |Pending(account.unfrozen, now)| >= UNFREEZE_MAX_TIMES { return Rejected; }
      var i := Find(account.frozen, resource);
      account := account.(frozen := account.frozen[i := FreezeV2(resource, account.frozen[i].amount - amount)]);
      var delay := delayDays * FROZEN_PERIOD_MS;
      if !FitsI64(delay) || !FitsI64(now + delay) { return Failed; }
      account := account.(unfrozen := account.unfrozen + [UnFreezeV2(resource, amount, now + delay)]);
      accounts := accounts[owner := account];
      outcome := Done;
    }

    method WithdrawExpireUnfreeze(owner: Address) returns (outcome: Outcome)
      modifies this`accounts
      ensures (View(), outcome) == Apply(old(View()), Withdraw(owner))
    {
      if owner !in accounts { return Rejected; }
      var account := accounts[owner];
      var total := MaturedTotal(account.unfrozen, now);
      if total <= 0 { return Rejected; }
      if !FitsI64(account.balance + total) { return Failed; }
      accounts := accounts[owner := account.(balance := account.balance + total,
                                             unfrozen := Pending(account.unfrozen, now))];
      outcome := Done;
    }

    /** Drain the unfreeze queue: matured entries to the balance, pending ones back to frozen. */
    method CancelAllUnfreeze(owner: Address) returns (outcome: Outcome)
      modifies this`accounts
      ensures (View(), outcome) == Apply(old(View()), CancelAll(owner))
    {
      if !allowCancel || owner !in accounts || accounts[owner].unfrozen == [] { return Rejected; }
      var account := accounts[owner];
      var queue := account.unfrozen;
      var frozen := account.frozen;
      var withdraw := 0;
      for i := 0 to |queue|
        invariant withdraw == MaturedTotal(queue[..i], now)
        invariant frozen == Refreeze(account.frozen, Pending(queue[..i], now))
      {
        var u := queue[i];
        assert queue[..i + 1][..i] == queue[..i];
        if u.expire <= now {
          withdraw := withdraw + u.amount;
        } else {
          var rest := Pending(queue[..i], now);
          assert (rest + [u])[..|rest|] == rest;
          frozen := AddFrozen(frozen, u.kind, u.amount);
        }
      }
      assert queue[..|queue|] == queue;
      if !FitsI64(account.balance + withdraw) { return Failed; }
      accounts := accounts[owner := account.(balance := account.balance + withdraw, frozen := frozen, unfrozen := [])];
      outcome := Done;
    }

    method DelegateResourceTo(owner: Address, receiver: Address, resource: int, amount: int, lock: bool,
                              lockPeriod: int)
      returns (outcome: Outcome)
      modifies this`accounts, this`records
      ensures (View(), outcome) == Apply(old(View()), Delegate(owner, receiver, resource, amount, lock, lockPeriod))
    {
      if !CanDelegate(Ledger(accounts, records, now, delayDays, allowTronPower, allowCancel),
                      owner, receiver, resource, amount, lock, lockPeriod) { return Rejected; }
      // owner: frozen -> delegated
      accounts := accounts[owner := MoveToDelegated(accounts[owner], resource, amount)];
      // receiver: acquired += amount
      accounts := accounts[receiver := AddAcquired(accounts[receiver], resource, amount)];
      // the record of this pair and lock flag
      var key := Key(owner, receiver, lock);
      var expire := 0;
      if lock { expire := now + LockBlocks(lockPeriod) * BLOCK_PRODUCED_INTERVAL_MS; }
      var rec := NoRecord;
      if key in records { rec := records[key]; }
      rec := SetFrozen(rec, resource, Frozen(rec, resource) + amount);
      rec := SetExpire(rec, resource, expire);
      records := records[key := rec];
      outcome := Done;
    }

    method MergeExpiredLock(owner: Address, receiver: Address, resource: int)
      modifies this`records
      ensures records == MergeExpired(old(records), owner, receiver, resource, now)
    {
      var lk, uk := Key(owner, receiver, true), Key(owner, receiver, false);
      if lk !in records { return; }
      var lock := records[lk];
      var locked := Frozen(lock, resource);
      if locked == 0 || Expire(lock, resource) == 0 || Expire(lock, resource) >= now { return; }
      var unlock := NoRecord;
      if uk in records { unlock := records[uk]; }
      records := records[uk := SetFrozen(unlock, resource, Frozen(unlock, resource) + locked)];
      lock := SetExpire(SetFrozen(lock, resource, 0), resource, 0);
      if IsEmpty(lock) {
        records := records - {lk};
      } else {
        records := records[lk := lock];
      }
    }

    method UnDelegateResourceFrom(owner: Address, receiver: Address, resource: int, amount: int)
      returns (outcome: Outcome)
      modifies this`accounts, this`records
      ensures (View(), outcome) == Apply(old(View()), Undelegate(owner, receiver, resource, amount))
    {
      if !CanUndelegate(Ledger(accounts, records, now, delayDays, allowTronPower, allowCancel),
                        owner, receiver, resource, amount) { return Rejected; }
      MergeExpiredLock(owner, receiver, resource);
      // receiver: acquired -= amount, floored at zero
      if receiver in accounts {
        accounts := accounts[receiver := AddAcquired(accounts[receiver], resource, -amount)];
      }
      // unlocked record: frozen -= amount
      var uk := Key(owner, receiver, false);
      if uk !in records { return Failed; }
      var unlock := records[uk];
      unlock := SetFrozen(unlock, resource, Frozen(unlock, resource) - amount);
      if IsEmpty(unlock) {
        records := records - {uk};
      } else {
        records := records[uk := unlock];
      }
      // owner: delegated -= amount, frozen += amount
      accounts := accounts[owner := MoveToDelegated(accounts[owner], resource, -amount)];
      outcome := Done;
    }
  }
}
