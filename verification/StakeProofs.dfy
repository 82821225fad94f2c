/** What every run of Stake 2.0 transactions keeps. */
module StakeProofs {
  import opened Words
  import opened MapSum
  import opened Stake

  // -- totals -------------------------------------------------------------

  function FrozenSum(fs: seq<FreezeV2>): int {
    if fs == [] then 0 else FrozenSum(fs[..|fs| - 1]) + fs[|fs| - 1].amount
  }

  function UnfrozenSum(us: seq<UnFreezeV2>): int {
    if us == [] then 0 else UnfrozenSum(us[..|us| - 1]) + us[|us| - 1].amount
  }

  /** Everything an account owns, wherever it currently sits. */
  function Total(a: Account): int {
    a.balance + FrozenSum(a.frozen) + UnfrozenSum(a.unfrozen) + a.delegatedBandwidth + a.delegatedEnergy
  }

  /** Each record's contribution to what `owner` has delegated of resource `r`. */
  function OwnerShares(records: map<Key, Record>, owner: Address, r: int): map<Key, int> {
    map k | k in records :: if k.owner == owner then Frozen(records[k], r) else 0
  }

  /** Each record's contribution to what `receiver` has acquired of resource `r`. */
  function ReceiverShares(records: map<Key, Record>, receiver: Address, r: int): map<Key, int> {
    map k | k in records :: if k.receiver == receiver then Frozen(records[k], r) else 0
  }

  // -- the invariant ------------------------------------------------------

  predicate FrozenOk(fs: seq<FreezeV2>) {
    && (forall i, j | 0 <= i < j < |fs| :: fs[i].kind != fs[j].kind)
    && (forall i | 0 <= i < |fs| :: fs[i].amount >= 0)
  }

  /** At most one frozen entry per resource, no negative amounts, at most 32 pending. */
  predicate AccountOk(a: Account, now: int) {
    && a.balance >= 0
    && FrozenOk(a.frozen)
    && (forall i | 0 <= i < |a.unfrozen| :: a.unfrozen[i].amount >= 0)
    && |Pending(a.unfrozen, now)| <= UNFREEZE_MAX_TIMES
  }

  /** Records are between two known accounts; a locked balance carries an expiry. */
  predicate RecordOk(s: Ledger, k: Key) {
    && k in s.records
    && k.owner != k.receiver && k.owner in s.accounts && k.receiver in s.accounts
    && s.records[k].bandwidth >= 0 && s.records[k].energy >= 0
    && (k.lock ==> && (s.records[k].bandwidth > 0 ==> s.records[k].expireBandwidth > 0)
                   && (s.records[k].energy > 0 ==> s.records[k].expireEnergy > 0))
  }

  /** Delegated and acquired balances are exactly the sums of the records. */
  ghost predicate Backed(s: Ledger, a: Address, r: int)
    requires a in s.accounts
  {
    && Delegated(s.accounts[a], r) == Sum(OwnerShares(s.records, a, r))
    && Acquired(s.accounts[a], r) == Sum(ReceiverShares(s.records, a, r))
  }

  ghost predicate AccountsOk(s: Ledger) {
    forall a | a in s.accounts :: AccountOk(s.accounts[a], s.now)
  }

  ghost predicate RecordsOk(s: Ledger) {
    forall k | k in s.records :: RecordOk(s, k)
  }

  ghost predicate AllBacked(s: Ledger) {
    forall a, r | a in s.accounts && DelegateResource(r) :: Backed(s, a, r)
  }

  ghost predicate LedgerOk(s: Ledger) {
    s.now >= 0 && AccountsOk(s) && RecordsOk(s) && AllBacked(s)
  }

  // -- lists --------------------------------------------------------------

  lemma {:induction false} FrozenSumUpdate(fs: seq<FreezeV2>, i: nat, f: FreezeV2)
    requires i < |fs|
    ensures FrozenSum(fs[i := f]) == FrozenSum(fs) - fs[i].amount + f.amount
  {
    var n := |fs| - 1;
    if i < n {
      FrozenSumUpdate(fs[..n], i, f);
      assert fs[i := f][..n] == fs[..n][i := f];
    } else {
      assert fs[i := f][..n] == fs[..n];
    }
  }

  /** `add_frozen_v2` adds exactly `delta`, to the one entry of its resource. */
  lemma AddFrozenAdds(fs: seq<FreezeV2>, kind: int, delta: int)
    requires FrozenOk(fs) && FrozenAmount(fs, kind) + delta >= 0
    ensures FrozenOk(AddFrozen(fs, kind, delta))
    ensures FrozenSum(AddFrozen(fs, kind, delta)) == FrozenSum(fs) + delta
  {
    var i := Find(fs, kind);
    var r := AddFrozen(fs, kind, delta);
    if i < |fs| {
      FrozenSumUpdate(fs, i, r[i]);
    } else {
      assert r[..|fs|] == fs;
    }
  }

  /** With one entry per resource, the total of a resource is its first entry. */
  lemma {:induction false} FrozenTotalIsAmount(fs: seq<FreezeV2>, kind: int)
    requires FrozenOk(fs)
    ensures FrozenTotal(fs, kind) <= FrozenAmount(fs, kind)
    ensures Find(fs, kind) == |fs| ==> FrozenTotal(fs, kind) == 0
  {
    if fs != [] {
      var n := |fs| - 1;
      var front := fs[..n];
      FrozenTotalIsAmount(front, kind);
      if Find(front, kind) < n {
        assert fs[Find(front, kind)].kind == kind;
        assert Find(fs, kind) == Find(front, kind);
      }
    }
  }

  lemma FrozenAmountNonNegative(fs: seq<FreezeV2>, kind: int)
    requires FrozenOk(fs)
    ensures FrozenAmount(fs, kind) >= 0
  {
  }

  lemma {:induction false} RefreezeAdds(fs: seq<FreezeV2>, us: seq<UnFreezeV2>)
    requires FrozenOk(fs) && forall i | 0 <= i < |us| :: us[i].amount >= 0
    ensures FrozenOk(Refreeze(fs, us))
    ensures FrozenSum(Refreeze(fs, us)) == FrozenSum(fs) + UnfrozenSum(us)
  {
    if us != [] {
      var n := |us| - 1;
      RefreezeAdds(fs, us[..n]);
      var front := Refreeze(fs, us[..n]);
      AddFrozenAdds(front, us[n].kind, us[n].amount);
    }
  }

  /** Matured and pending entries partition the unfrozen list. */
  lemma {:induction false} MaturedAndPending(us: seq<UnFreezeV2>, now: int)
    ensures UnfrozenSum(us) == MaturedTotal(us, now) + UnfrozenSum(Pending(us, now))
    ensures forall i | 0 <= i < |Pending(us, now)| :: Pending(us, now)[i] in us && Pending(us, now)[i].expire > now
    ensures |Pending(us, now)| <= |us|
  {
    if us != [] {
      var n := |us| - 1;
      MaturedAndPending(us[..n], now);
      var rest := Pending(us[..n], now);
      if us[n].expire > now {
        assert Pending(us, now)[..|rest|] == rest;
      }
    }
  }

  lemma {:induction false} PendingShrinks(us: seq<UnFreezeV2>, now: int, later: int)
    requires now <= later
    ensures |Pending(us, later)| <= |Pending(us, now)|
  {
    if us != [] {
      PendingShrinks(us[..|us| - 1], now, later);
    }
  }

  /** What is pending now was pending then: filtering twice is filtering once. */
  lemma {:induction false} PendingOfPending(us: seq<UnFreezeV2>, now: int)
    ensures Pending(Pending(us, now), now) == Pending(us, now)
  {
    if us != [] {
      var n := |us| - 1;
      PendingOfPending(us[..n], now);
      var rest := Pending(us[..n], now);
      if us[n].expire > now {
        assert Pending(us, now)[..|rest|] == rest;
      }
    }
  }

  // -- records ------------------------------------------------------------

  /** Changing one record changes its owner's sum by the difference. */
  lemma OwnerShareChange(before: map<Key, Record>, after: map<Key, Record>, k: Key, a: Address, r: int)
    requires before - {k} == after - {k}
    ensures Sum(OwnerShares(after, a, r)) == Sum(OwnerShares(before, a, r)) +
            if a == k.owner then Frozen(RecordAt(after, k), r) - Frozen(RecordAt(before, k), r) else 0
  {
    SameElsewhere(before, after, k);
    assert OwnerShares(before, a, r) - {k} == OwnerShares(after, a, r) - {k};
    SumChange(OwnerShares(before, a, r), OwnerShares(after, a, r), k);
  }

  /** Changing one record changes its receiver's sum by the difference. */
  lemma ReceiverShareChange(before: map<Key, Record>, after: map<Key, Record>, k: Key, a: Address, r: int)
    requires before - {k} == after - {k}
    ensures Sum(ReceiverShares(after, a, r)) == Sum(ReceiverShares(before, a, r)) +
            if a == k.receiver then Frozen(RecordAt(after, k), r) - Frozen(RecordAt(before, k), r) else 0
  {
    SameElsewhere(before, after, k);
    assert ReceiverShares(before, a, r) - {k} == ReceiverShares(after, a, r) - {k};
    SumChange(ReceiverShares(before, a, r), ReceiverShares(after, a, r), k);
  }

  lemma SameElsewhere(before: map<Key, Record>, after: map<Key, Record>, k: Key)
    requires before - {k} == after - {k}
    ensures forall j | j != k :: (j in before <==> j in after) && (j in before ==> before[j] == after[j])
  {
    forall j | j != k
      ensures (j in before <==> j in after) && (j in before ==> before[j] == after[j])
    {
      assert j in before <==> j in before - {k};
      assert j in after <==> j in after - {k};
      if j in before {
        assert before[j] == (before - {k})[j];
        assert after[j] == (after - {k})[j];
      }
    }
  }

  /** Merging an expired lock moves a balance between two records of one pair: no sum changes. */
  lemma MergeKeepsShares(records: map<Key, Record>, owner: Address, receiver: Address, r: int, now: int, a: Address,
                         q: int)
    requires DelegateResource(r) && DelegateResource(q)
    ensures var merged := MergeExpired(records, owner, receiver, r, now);
            && Sum(OwnerShares(merged, a, q)) == Sum(OwnerShares(records, a, q))
            && Sum(ReceiverShares(merged, a, q)) == Sum(ReceiverShares(records, a, q))
  {
    var lk, uk := Key(owner, receiver, true), Key(owner, receiver, false);
    var merged := MergeExpired(records, owner, receiver, r, now);
    if merged != records {
      var u, l := RecordAt(records, uk), records[lk];
      var mid := records[uk := SetFrozen(u, r, Frozen(u, r) + Frozen(l, r))];
      assert records - {uk} == mid - {uk};
      assert mid - {lk} == merged - {lk};
      OwnerShareChange(records, mid, uk, a, q);
      OwnerShareChange(mid, merged, lk, a, q);
      ReceiverShareChange(records, mid, uk, a, q);
      ReceiverShareChange(mid, merged, lk, a, q);
    }
  }

  // -- steps on one account -----------------------------------------------

  /** `b` is a good account that owns what `a` owns and delegates what `a` delegates. */
  predicate GoodSuccessor(a: Account, b: Account, now: int) {
    && AccountOk(b, now) && Total(b) == Total(a)
    && b.delegatedBandwidth == a.delegatedBandwidth && b.delegatedEnergy == a.delegatedEnergy
    && b.acquiredBandwidth == a.acquiredBandwidth && b.acquiredEnergy == a.acquiredEnergy
  }

  lemma FreezeIsGood(a: Account, now: int, amount: int, r: int)
    requires AccountOk(a, now) && 0 < amount <= a.balance
    ensures GoodSuccessor(a, AfterFreeze(a, amount, r), now)
  {
    AddFrozenAdds(a.frozen, r, amount);
  }

  lemma UnfreezeIsGood(a: Account, now: int, amount: int, r: int, expire: int)
    requires AccountOk(a, now) && 0 < amount <= FrozenAmount(a.frozen, r)
    requires |Pending(a.unfrozen, now)| < UNFREEZE_MAX_TIMES
    ensures GoodSuccessor(a, AfterUnfreeze(a, amount, r, expire), now)
  {
    AddFrozenAdds(a.frozen, r, -amount);
    var u := a.unfrozen + [UnFreezeV2(r, amount, expire)];
    assert u[..|a.unfrozen|] == a.unfrozen;
  }

  lemma WithdrawIsGood(a: Account, now: int)
    requires AccountOk(a, now)
    ensures GoodSuccessor(a, AfterWithdraw(a, now), now)
  {
    MaturedAndPending(a.unfrozen, now);
    MaturedNonNegative(a.unfrozen, now);
    PendingOfPending(a.unfrozen, now);
  }

  lemma CancelIsGood(a: Account, now: int)
    requires AccountOk(a, now)
    ensures GoodSuccessor(a, AfterCancel(a, now), now)
  {
    MaturedAndPending(a.unfrozen, now);
    MaturedNonNegative(a.unfrozen, now);
    RefreezeAdds(a.frozen, Pending(a.unfrozen, now));
  }

  lemma {:induction false} MaturedNonNegative(us: seq<UnFreezeV2>, now: int)
    requires forall i | 0 <= i < |us| :: us[i].amount >= 0
    ensures MaturedTotal(us, now) >= 0
  {
    if us != [] {
      MaturedNonNegative(us[..|us| - 1], now);
    }
  }

  /** What every step keeps: a good ledger, the same accounts, and each account's total. */
  ghost predicate Keeps(s: Ledger, t: Ledger) {
    && LedgerOk(t)
    && t.accounts.Keys == s.accounts.Keys
    && forall a | a in s.accounts :: Total(t.accounts[a]) == Total(s.accounts[a])
  }

  lemma LocalStepKeeps(s: Ledger, owner: Address, acc: Account)
    requires LedgerOk(s) && owner in s.accounts && GoodSuccessor(s.accounts[owner], acc, s.now)
    ensures Keeps(s, PutAccount(s, owner, acc))
  {
    var t := PutAccount(s, owner, acc);
    forall a, r | a in t.accounts && DelegateResource(r)
      ensures Backed(t, a, r)
    {
      assert Backed(s, a, r);
    }
    forall k | k in t.records
      ensures RecordOk(t, k)
    {
      assert RecordOk(s, k);
    }
  }

  // -- delegate -----------------------------------------------------------

  /** The locked expiry `execute` writes. */
  function NewExpire(s: Ledger, lock: bool, period: int): int {
    if lock then s.now + LockBlocks(period) * BLOCK_PRODUCED_INTERVAL_MS else 0
  }

  /** A delegation step written out: two accounts and one record change. */
  ghost predicate DelegateStep(s: Ledger, t: Ledger, k: Key, r: int, amount: int, expire: int)
    requires k.owner in s.accounts && k.receiver in s.accounts
  {
    var o, rc := s.accounts[k.owner], s.accounts[k.receiver];
    var rec := RecordAt(s.records, k);
    && t.accounts == s.accounts[k.owner := MoveToDelegated(o, r, amount)][k.receiver := AddAcquired(rc, r, amount)]
    && t.records == s.records[k := SetExpire(SetFrozen(rec, r, Frozen(rec, r) + amount), r, expire)]
    && t.now == s.now
  }

  lemma DelegateShape(s: Ledger, owner: Address, receiver: Address, r: int, amount: int, lock: bool, period: int)
    requires CanDelegate(s, owner, receiver, r, amount, lock, period)
    ensures DelegateStep(s, DoDelegate(s, owner, receiver, r, amount, lock, period).0,
                         Key(owner, receiver, lock), r, amount, NewExpire(s, lock, period))
  {
  }

  /** Delegated amounts and acquired amounts leave what an account owns unchanged. */
  lemma DelegationIsGood(o: Account, now: int, r: int, delta: int)
    requires AccountOk(o, now) && FrozenAmount(o.frozen, r) - delta >= 0
    ensures AccountOk(MoveToDelegated(o, r, delta), now) && Total(MoveToDelegated(o, r, delta)) == Total(o)
  {
    AddFrozenAdds(o.frozen, r, -delta);
  }

  lemma AcquiringIsGood(a: Account, now: int, r: int, delta: int)
    requires AccountOk(a, now)
    ensures AccountOk(AddAcquired(a, r, delta), now) && Total(AddAcquired(a, r, delta)) == Total(a)
  {
  }

  /** Replacing two accounts by good ones of the same totals. */
  lemma TwoAccountsKeep(s: Ledger, t: Ledger, a: Address, accA: Account, b: Address, accB: Account)
    requires AccountsOk(s) && a in s.accounts && b in s.accounts && a != b
    requires t.accounts == s.accounts[a := accA][b := accB] && t.now == s.now
    requires AccountOk(accA, s.now) && Total(accA) == Total(s.accounts[a])
    requires AccountOk(accB, s.now) && Total(accB) == Total(s.accounts[b])
    ensures AccountsOk(t) && t.accounts.Keys == s.accounts.Keys
    ensures forall c | c in s.accounts :: Total(t.accounts[c]) == Total(s.accounts[c])
  {
  }

  lemma DelegateKeepsAccounts(s: Ledger, t: Ledger, k: Key, r: int, amount: int, expire: int)
    requires AccountsOk(s) && k.owner in s.accounts && k.receiver in s.accounts && k.owner != k.receiver
    requires DelegateStep(s, t, k, r, amount, expire)
    requires amount <= FrozenTotal(s.accounts[k.owner].frozen, r)
    ensures AccountsOk(t) && t.accounts.Keys == s.accounts.Keys
    ensures forall a | a in s.accounts :: Total(t.accounts[a]) == Total(s.accounts[a])
  {
    FrozenTotalIsAmount(s.accounts[k.owner].frozen, r);
    DelegationIsGood(s.accounts[k.owner], s.now, r, amount);
    AcquiringIsGood(s.accounts[k.receiver], s.now, r, amount);
    TwoAccountsKeep(s, t, k.owner, MoveToDelegated(s.accounts[k.owner], r, amount),
                    k.receiver, AddAcquired(s.accounts[k.receiver], r, amount));
  }

  lemma DelegateKeepsRecords(s: Ledger, t: Ledger, k: Key, r: int, amount: int, expire: int)
    requires RecordsOk(s) && k.owner in s.accounts && k.receiver in s.accounts && k.owner != k.receiver
    requires DelegateStep(s, t, k, r, amount, expire)
    requires DelegateResource(r) && amount > 0 && (k.lock ==> expire > 0)
    ensures RecordsOk(t)
  {
    forall j | j in t.records
      ensures RecordOk(t, j)
    {
      if j in s.records {
        assert RecordOk(s, j);
      }
    }
  }

  lemma DelegateKeepsBacking(s: Ledger, t: Ledger, k: Key, r: int, amount: int, expire: int, a: Address, q: int)
    requires k.owner in s.accounts && k.receiver in s.accounts && k.owner != k.receiver
    requires DelegateStep(s, t, k, r, amount, expire)
    requires DelegateResource(r) && DelegateResource(q) && amount > 0
    requires a in s.accounts && Backed(s, a, q)
    ensures Backed(t, a, q)
  {
    assert s.records - {k} == t.records - {k};
    OwnerShareChange(s.records, t.records, k, a, q);
    ReceiverShareChange(s.records, t.records, k, a, q);
  }

  lemma DelegateKeeps(s: Ledger, owner: Address, receiver: Address, r: int, amount: int, lock: bool, period: int)
    requires LedgerOk(s) && CanDelegate(s, owner, receiver, r, amount, lock, period)
    ensures Keeps(s, DoDelegate(s, owner, receiver, r, amount, lock, period).0)
  {
    var t := DoDelegate(s, owner, receiver, r, amount, lock, period).0;
    var k, expire := Key(owner, receiver, lock), NewExpire(s, lock, period);
    DelegateShape(s, owner, receiver, r, amount, lock, period);
    DelegateKeepsAccounts(s, t, k, r, amount, expire);
    DelegateKeepsRecords(s, t, k, r, amount, expire);
    forall a, q | a in t.accounts && DelegateResource(q)
      ensures Backed(t, a, q)
    {
      DelegateKeepsBacking(s, t, k, r, amount, expire, a, q);
    }
  }

  // -- undelegate ---------------------------------------------------------

  /** What `validate` calls available is exactly the unlocked record after merging. */
  lemma AvailableIsMergedRecord(s: Ledger, owner: Address, receiver: Address, r: int)
    requires RecordsOk(s) && DelegateResource(r)
    ensures Frozen(RecordAt(MergeExpired(s.records, owner, receiver, r, s.now), Key(owner, receiver, false)), r)
            == Available(s, owner, receiver, r)
  {
    var lk := Key(owner, receiver, true);
    if lk in s.records {
      assert RecordOk(s, lk);
    }
  }

  lemma MergedRecordsOk(s: Ledger, owner: Address, receiver: Address, r: int)
    requires RecordsOk(s) && DelegateResource(r)
    ensures RecordsOk(s.(records := MergeExpired(s.records, owner, receiver, r, s.now)))
  {
    var t := s.(records := MergeExpired(s.records, owner, receiver, r, s.now));
    var lk, uk := Key(owner, receiver, true), Key(owner, receiver, false);
    if t.records != s.records {
      assert RecordOk(s, lk);
      forall k | k in t.records
        ensures RecordOk(t, k)
      {
        if k in s.records {
          assert RecordOk(s, k);
        }
      }
    }
  }

  lemma ReceiverShareBound(t: Ledger, k: Key, r: int)
    requires RecordsOk(t) && DelegateResource(r)
    ensures Frozen(RecordAt(t.records, k), r) <= Sum(ReceiverShares(t.records, k.receiver, r))
  {
    var shares := ReceiverShares(t.records, k.receiver, r);
    forall j | j in shares
      ensures shares[j] >= 0
    {
      assert RecordOk(t, j);
    }
    SumAtLeast(shares, k);
  }

  /** The receiver always holds what is undelegated: the floor at zero is never reached. */
  lemma AcquiredCoversUndelegate(s: Ledger, owner: Address, receiver: Address, r: int, amount: int)
    requires LedgerOk(s) && CanUndelegate(s, owner, receiver, r, amount)
    ensures receiver in s.accounts && Acquired(s.accounts[receiver], r) >= amount
  {
    var uk, lk := Key(owner, receiver, false), Key(owner, receiver, true);
    assert RecordOk(s, if uk in s.records then uk else lk);
    assert Backed(s, receiver, r);
    AvailableIsMergedRecord(s, owner, receiver, r);
    MergeKeepsShares(s.records, owner, receiver, r, s.now, receiver, r);
    MergedRecordsOk(s, owner, receiver, r);
    ReceiverShareBound(s.(records := MergeExpired(s.records, owner, receiver, r, s.now)), uk, r);
  }

  /** An undelegation step written out: after the merge, two accounts and one record change. */
  ghost predicate UndelegateStep(s: Ledger, t: Ledger, merged: map<Key, Record>, uk: Key, r: int, amount: int)
    requires uk.owner in s.accounts && uk.receiver in s.accounts && uk in merged
  {
    var o, rc := s.accounts[uk.owner], s.accounts[uk.receiver];
    && t.accounts == s.accounts[uk.receiver := AddAcquired(rc, r, -amount)]
                               [uk.owner := MoveToDelegated(o, r, -amount)]
    && t.records == PutOrDelete(merged, uk, SetFrozen(merged[uk], r, Frozen(merged[uk], r) - amount))
    && t.now == s.now
  }

  /** A validated undelegate always executes. */
  lemma UndelegateSucceeds(s: Ledger, owner: Address, receiver: Address, r: int, amount: int)
    requires LedgerOk(s) && CanUndelegate(s, owner, receiver, r, amount)
    ensures var (t, outcome) := DoUndelegate(s, owner, receiver, r, amount);
            var merged := MergeExpired(s.records, owner, receiver, r, s.now);
            var uk := Key(owner, receiver, false);
            && outcome == Done
            && receiver in s.accounts && uk in merged
            && amount <= Frozen(merged[uk], r) && amount <= Acquired(s.accounts[receiver], r)
            && UndelegateStep(s, t, merged, uk, r, amount)
  {
    AvailableIsMergedRecord(s, owner, receiver, r);
    AcquiredCoversUndelegate(s, owner, receiver, r, amount);
  }

  lemma UndelegateKeepsAccounts(s: Ledger, t: Ledger, merged: map<Key, Record>, uk: Key, r: int, amount: int)
    requires AccountsOk(s) && uk.owner in s.accounts && uk.receiver in s.accounts && uk.owner != uk.receiver
    requires uk in merged && UndelegateStep(s, t, merged, uk, r, amount)
    requires amount > 0
    ensures AccountsOk(t) && t.accounts.Keys == s.accounts.Keys
    ensures forall a | a in s.accounts :: Total(t.accounts[a]) == Total(s.accounts[a])
  {
    FrozenAmountNonNegative(s.accounts[uk.owner].frozen, r);
    DelegationIsGood(s.accounts[uk.owner], s.now, r, -amount);
    AcquiringIsGood(s.accounts[uk.receiver], s.now, r, -amount);
    TwoAccountsKeep(s, t, uk.receiver, AddAcquired(s.accounts[uk.receiver], r, -amount),
                    uk.owner, MoveToDelegated(s.accounts[uk.owner], r, -amount));
  }

  lemma UndelegateKeepsRecords(s: Ledger, t: Ledger, merged: map<Key, Record>, uk: Key, r: int, amount: int)
    requires uk.owner in s.accounts && uk.receiver in s.accounts && uk in merged
    requires RecordsOk(s.(records := merged)) && t.accounts.Keys == s.accounts.Keys
    requires UndelegateStep(s, t, merged, uk, r, amount)
    requires DelegateResource(r) && !uk.lock && amount <= Frozen(merged[uk], r)
    ensures RecordsOk(t)
  {
    var mid := s.(records := merged);
    forall k | k in t.records
      ensures RecordOk(t, k)
    {
      assert RecordOk(mid, k);
    }
  }

  lemma UndelegateKeepsBacking(s: Ledger, t: Ledger, merged: map<Key, Record>, uk: Key, r: int, amount: int,
                               a: Address, q: int)
    requires uk.owner in s.accounts && uk.receiver in s.accounts && uk.owner != uk.receiver && uk in merged
    requires UndelegateStep(s, t, merged, uk, r, amount)
    requires DelegateResource(r) && DelegateResource(q)
    requires 0 < amount <= Acquired(s.accounts[uk.receiver], r)
    requires a in s.accounts && Backed(s.(records := merged), a, q)
    ensures Backed(t, a, q)
  {
    assert merged - {uk} == t.records - {uk};
    OwnerShareChange(merged, t.records, uk, a, q);
    ReceiverShareChange(merged, t.records, uk, a, q);
  }

  lemma UndelegateKeeps(s: Ledger, owner: Address, receiver: Address, r: int, amount: int)
    requires LedgerOk(s) && CanUndelegate(s, owner, receiver, r, amount)
    ensures Keeps(s, DoUndelegate(s, owner, receiver, r, amount).0)
  {
    var t := DoUndelegate(s, owner, receiver, r, amount).0;
    var merged := MergeExpired(s.records, owner, receiver, r, s.now);
    var uk := Key(owner, receiver, false);
    UndelegateSucceeds(s, owner, receiver, r, amount);
    UndelegateKeepsAccounts(s, t, merged, uk, r, amount);
    MergedRecordsOk(s, owner, receiver, r);
    UndelegateKeepsRecords(s, t, merged, uk, r, amount);
    forall a, q | a in t.accounts && DelegateResource(q)
      ensures Backed(t, a, q)
    {
      assert Backed(s, a, q);
      MergeKeepsShares(s.records, owner, receiver, r, s.now, a, q);
      UndelegateKeepsBacking(s, t, merged, uk, r, amount, a, q);
    }
  }

  // -- whole runs ---------------------------------------------------------

  lemma TickKeeps(s: Ledger, time: int)
    requires LedgerOk(s) && s.now <= time
    ensures Keeps(s, s.(now := time))
  {
    var t := s.(now := time);
    forall a | a in t.accounts
      ensures AccountOk(t.accounts[a], t.now)
    {
      assert AccountOk(s.accounts[a], s.now);
      PendingShrinks(t.accounts[a].unfrozen, s.now, time);
    }
    forall k | k in t.records
      ensures RecordOk(t, k)
    {
      assert RecordOk(s, k);
    }
    forall a, r | a in t.accounts && DelegateResource(r)
      ensures Backed(t, a, r)
    {
      assert Backed(s, a, r);
    }
  }

  /** A step that fails in `execute`, or replaces one account by a good successor. */
  lemma OneAccountKeeps(s: Ledger, t: Ledger, owner: Address, acc: Account)
    requires LedgerOk(s) && owner in s.accounts && GoodSuccessor(s.accounts[owner], acc, s.now)
    requires t == s || t == PutAccount(s, owner, acc)
    ensures Keeps(s, t)
  {
    LocalStepKeeps(s, owner, acc);
  }

  lemma FreezeKeeps(s: Ledger, t: Ledger, owner: Address, amount: int, r: int)
    requires LedgerOk(s) && CanFreeze(s, owner, amount, r) && t == DoFreeze(s, owner, amount, r).0
    ensures Keeps(s, t)
  {
    FreezeIsGood(s.accounts[owner], s.now, amount, r);
    OneAccountKeeps(s, t, owner, AfterFreeze(s.accounts[owner], amount, r));
  }

  lemma UnfreezeKeeps(s: Ledger, t: Ledger, owner: Address, amount: int, r: int)
    requires LedgerOk(s) && CanUnfreeze(s, owner, amount, r) && t == DoUnfreeze(s, owner, amount, r).0
    ensures Keeps(s, t)
  {
    var expire := s.now + DelayMs(s);
    UnfreezeIsGood(s.accounts[owner], s.now, amount, r, expire);
    OneAccountKeeps(s, t, owner, AfterUnfreeze(s.accounts[owner], amount, r, expire));
  }

  lemma WithdrawKeeps(s: Ledger, t: Ledger, owner: Address)
    requires LedgerOk(s) && CanWithdraw(s, owner) && t == DoWithdraw(s, owner).0
    ensures Keeps(s, t)
  {
    WithdrawIsGood(s.accounts[owner], s.now);
    OneAccountKeeps(s, t, owner, AfterWithdraw(s.accounts[owner], s.now));
  }

  lemma CancelKeeps(s: Ledger, t: Ledger, owner: Address)
    requires LedgerOk(s) && CanCancel(s, owner) && t == DoCancel(s, owner).0
    ensures Keeps(s, t)
  {
    CancelIsGood(s.accounts[owner], s.now);
    OneAccountKeeps(s, t, owner, AfterCancel(s.accounts[owner], s.now));
  }

  lemma StepKeeps(s: Ledger, tx: Tx)
    requires LedgerOk(s)
    ensures Keeps(s, Apply(s, tx).0)
  {
    var t := Apply(s, tx).0;
    if Apply(s, tx).1 != Rejected {
      match tx
      case Freeze(owner, amount, r) => FreezeKeeps(s, t, owner, amount, r);
      case Unfreeze(owner, amount, r) => UnfreezeKeeps(s, t, owner, amount, r);
      case Withdraw(owner) => WithdrawKeeps(s, t, owner);
      case CancelAll(owner) => CancelKeeps(s, t, owner);
      case Delegate(owner, receiver, r, amount, lock, period) =>
        DelegateKeeps(s, owner, receiver, r, amount, lock, period);
      case Undelegate(owner, receiver, r, amount) => UndelegateKeeps(s, owner, receiver, r, amount);
      case Tick(time) => TickKeeps(s, time);
    }
  }

  /**
   * Over every run of the six transactions: each account's balance plus frozen, unfrozen
   * and delegated amounts is unchanged, delegated and acquired balances stay backed by the
   * records, frozen entries stay unique and non-negative, at most 32 unfreezes are pending.
   */
  lemma {:induction false} RunKeeps(s: Ledger, txs: seq<Tx>)
    requires LedgerOk(s)
    ensures Keeps(s, RunAll(s, txs))
  {
    if txs != [] {
      RunKeeps(s, txs[..|txs| - 1]);
      StepKeeps(RunAll(s, txs[..|txs| - 1]), txs[|txs| - 1]);
    }
  }

  /** Ledgers with nothing delegated yet are good starting points. */
  lemma FreshLedgerOk(s: Ledger)
    requires s.now >= 0 && s.records == map[]
    requires forall a | a in s.accounts ::
               && AccountOk(s.accounts[a], s.now)
               && s.accounts[a].delegatedBandwidth == s.accounts[a].delegatedEnergy == 0
               && s.accounts[a].acquiredBandwidth == s.accounts[a].acquiredEnergy == 0
    ensures LedgerOk(s)
  {
    forall a, r | a in s.accounts && DelegateResource(r)
      ensures Backed(s, a, r)
    {
      assert OwnerShares(s.records, a, r) == map[] && ReceiverShares(s.records, a, r) == map[];
    }
  }

  // -- execute never fails after validate -----------------------------------

  lemma {:induction false} FrozenAmountBound(fs: seq<FreezeV2>, kind: int)
    requires FrozenOk(fs)
    ensures 0 <= FrozenAmount(fs, kind) <= FrozenSum(fs)
  {
    if fs != [] {
      var n := |fs| - 1;
      FrozenAmountBound(fs[..n], kind);
      if Find(fs[..n], kind) < n {
        assert Find(fs, kind) == Find(fs[..n], kind);
      } else {
        assert FrozenSum(fs[..n]) >= 0;
      }
    }
  }

  lemma {:induction false} UnfrozenSumNonNegative(us: seq<UnFreezeV2>)
    requires forall i | 0 <= i < |us| :: us[i].amount >= 0
    ensures UnfrozenSum(us) >= 0
  {
    if us != [] {
      UnfrozenSumNonNegative(us[..|us| - 1]);
    }
  }

  lemma DelegatedNonNegative(s: Ledger, a: Address, r: int)
    requires RecordsOk(s) && AllBacked(s) && a in s.accounts && DelegateResource(r)
    ensures Delegated(s.accounts[a], r) >= 0
  {
    var shares := OwnerShares(s.records, a, r);
    forall k | k in shares
      ensures shares[k] >= 0
    {
      assert RecordOk(s, k);
    }
    SumNonNegative(shares);
    assert Backed(s, a, r);
  }

  /** Every part of what an account owns is between zero and its total. */
  lemma PartsWithinTotal(s: Ledger, a: Address, kind: int)
    requires LedgerOk(s) && a in s.accounts
    ensures var acc := s.accounts[a];
            && 0 <= FrozenAmount(acc.frozen, kind) <= FrozenSum(acc.frozen)
            && 0 <= MaturedTotal(acc.unfrozen, s.now) <= UnfrozenSum(acc.unfrozen)
            && 0 <= acc.balance
            && acc.balance + FrozenSum(acc.frozen) + UnfrozenSum(acc.unfrozen) <= Total(acc)
            && 0 <= acc.delegatedBandwidth <= Total(acc) && 0 <= acc.delegatedEnergy <= Total(acc)
  {
    var acc := s.accounts[a];
    assert AccountOk(acc, s.now);
    DelegatedNonNegative(s, a, BANDWIDTH);
    DelegatedNonNegative(s, a, ENERGY);
    FrozenAmountBound(acc.frozen, kind);
    MaturedAndPending(acc.unfrozen, s.now);
    MaturedNonNegative(acc.unfrozen, s.now);
    UnfrozenSumNonNegative(Pending(acc.unfrozen, s.now));
  }

  /**
   * In every reachable state whose totals fit in `i64`, a validated transaction executes:
   * no amount overflows, and only an unfreeze whose maturity date overflows can fail.
   */
  lemma ValidatedExecutes(s: Ledger, tx: Tx)
    requires LedgerOk(s)
    requires forall a | a in s.accounts :: Total(s.accounts[a]) <= I64_MAX
    ensures Apply(s, tx).1 == Failed <==>
            tx.Unfreeze? && CanUnfreeze(s, tx.owner, tx.amount, tx.resource)
            && !(FitsI64(DelayMs(s)) && FitsI64(s.now + DelayMs(s)))
  {
    match tx
    case Freeze(owner, amount, r) => FreezeExecutes(s, owner, amount, r);
    case Unfreeze(owner, amount, r) =>
    case Withdraw(owner) => WithdrawExecutes(s, owner);
    case CancelAll(owner) => CancelExecutes(s, owner);
    case Delegate(owner, receiver, r, amount, lock, period) =>
      DelegateExecutes(s, owner, receiver, r, amount, lock, period);
    case Undelegate(owner, receiver, r, amount) => UndelegateExecutes(s, owner, receiver, r, amount);
    case Tick(time) =>
  }

  lemma DelegateExecutes(s: Ledger, owner: Address, receiver: Address, r: int, amount: int, lock: bool, period: int)
    ensures CanDelegate(s, owner, receiver, r, amount, lock, period) ==>
              DoDelegate(s, owner, receiver, r, amount, lock, period).1 == Done
  {
  }

  lemma UndelegateExecutes(s: Ledger, owner: Address, receiver: Address, r: int, amount: int)
    requires LedgerOk(s)
    ensures CanUndelegate(s, owner, receiver, r, amount) ==> DoUndelegate(s, owner, receiver, r, amount).1 == Done
  {
    if CanUndelegate(s, owner, receiver, r, amount) {
      UndelegateSucceeds(s, owner, receiver, r, amount);
    }
  }

  lemma FreezeExecutes(s: Ledger, owner: Address, amount: int, r: int)
    requires LedgerOk(s) && (owner in s.accounts ==> Total(s.accounts[owner]) <= I64_MAX)
    ensures CanFreeze(s, owner, amount, r) ==> DoFreeze(s, owner, amount, r).1 == Done
  {
    if owner in s.accounts {
      PartsWithinTotal(s, owner, r);
    }
  }

  lemma WithdrawExecutes(s: Ledger, owner: Address)
    requires LedgerOk(s) && (owner in s.accounts ==> Total(s.accounts[owner]) <= I64_MAX)
    ensures CanWithdraw(s, owner) ==> DoWithdraw(s, owner).1 == Done
  {
    if owner in s.accounts {
      PartsWithinTotal(s, owner, BANDWIDTH);
    }
  }

  lemma CancelExecutes(s: Ledger, owner: Address)
    requires LedgerOk(s) && (owner in s.accounts ==> Total(s.accounts[owner]) <= I64_MAX)
    ensures CanCancel(s, owner) ==> DoCancel(s, owner).1 == Done
  {
    if owner in s.accounts {
      PartsWithinTotal(s, owner, BANDWIDTH);
    }
  }

  /** The same at the end of every run from a good ledger. */
  lemma ValidatedExecutesAfterRun(s: Ledger, txs: seq<Tx>, tx: Tx)
    requires LedgerOk(s)
    requires forall a | a in s.accounts :: Total(s.accounts[a]) <= I64_MAX
    ensures var t := RunAll(s, txs);
            Apply(t, tx).1 == Failed <==>
            tx.Unfreeze? && CanUnfreeze(t, tx.owner, tx.amount, tx.resource)
            && !(FitsI64(DelayMs(t)) && FitsI64(t.now + DelayMs(t)))
  {
    RunKeeps(s, txs);
    ValidatedExecutes(RunAll(s, txs), tx);
  }

  // -- locks --------------------------------------------------------------

  function Locked(s: Ledger, k: Key, r: int): int {
    Frozen(RecordAt(s.records, k), r)
  }

  function LockExpiry(s: Ledger, k: Key, r: int): int {
    Expire(RecordAt(s.records, k), r)
  }

  /**
   * From `s` to `t`, a positive locked balance either stays or grows, its expiry not moved
   * back, or leaves all at once, and that only because the lock had expired.
   */
  ghost predicate LockHolds(s: Ledger, t: Ledger, k: Key, r: int) {
    Locked(s, k, r) > 0 ==>
      || (Locked(t, k, r) >= Locked(s, k, r) && LockExpiry(t, k, r) >= LockExpiry(s, k, r))
      || (Locked(t, k, r) == 0 && LockExpiry(s, k, r) < s.now)
  }

  lemma DelegateHoldsLocks(s: Ledger, owner: Address, receiver: Address, r: int, amount: int, lock: bool, period: int,
                           k: Key, q: int)
    requires CanDelegate(s, owner, receiver, r, amount, lock, period) && k.lock && DelegateResource(q)
    ensures LockHolds(s, DoDelegate(s, owner, receiver, r, amount, lock, period).0, k, q)
  {
    DelegateShape(s, owner, receiver, r, amount, lock, period);
  }

  lemma MergeHoldsLocks(s: Ledger, owner: Address, receiver: Address, r: int, k: Key, q: int)
    requires k.lock && DelegateResource(q) && DelegateResource(r)
    ensures LockHolds(s, s.(records := MergeExpired(s.records, owner, receiver, r, s.now)), k, q)
  {
  }

  lemma UndelegateHoldsLocks(s: Ledger, owner: Address, receiver: Address, r: int, amount: int, k: Key, q: int)
    requires LedgerOk(s) && CanUndelegate(s, owner, receiver, r, amount) && k.lock && DelegateResource(q)
    ensures LockHolds(s, DoUndelegate(s, owner, receiver, r, amount).0, k, q)
  {
    UndelegateSucceeds(s, owner, receiver, r, amount);
    MergeHoldsLocks(s, owner, receiver, r, k, q);
  }

  lemma OthersKeepRecords(s: Ledger, tx: Tx)
    requires !tx.Delegate? && !tx.Undelegate?
    ensures Apply(s, tx).0.records == s.records && s.now <= Apply(s, tx).0.now
  {
  }

  lemma StepHoldsLocks(s: Ledger, tx: Tx, k: Key, q: int)
    requires LedgerOk(s) && k.lock && DelegateResource(q)
    ensures LockHolds(s, Apply(s, tx).0, k, q) && s.now <= Apply(s, tx).0.now
  {
    if tx.Delegate? {
      DelegateTxHoldsLocks(s, tx, k, q);
    } else if tx.Undelegate? {
      UndelegateTxHoldsLocks(s, tx, k, q);
    } else {
      OthersKeepRecords(s, tx);
    }
  }

  lemma DelegateTxHoldsLocks(s: Ledger, tx: Tx, k: Key, q: int)
    requires tx.Delegate? && k.lock && DelegateResource(q)
    ensures LockHolds(s, Apply(s, tx).0, k, q) && s.now == Apply(s, tx).0.now
  {
    if CanDelegate(s, tx.owner, tx.receiver, tx.resource, tx.amount, tx.lock, tx.lockPeriod) {
      DelegateHoldsLocks(s, tx.owner, tx.receiver, tx.resource, tx.amount, tx.lock, tx.lockPeriod, k, q);
    }
  }

  lemma UndelegateTxHoldsLocks(s: Ledger, tx: Tx, k: Key, q: int)
    requires LedgerOk(s) && tx.Undelegate? && k.lock && DelegateResource(q)
    ensures LockHolds(s, Apply(s, tx).0, k, q) && s.now == Apply(s, tx).0.now
  {
    if CanUndelegate(s, tx.owner, tx.receiver, tx.resource, tx.amount) {
      UndelegateHoldsLocks(s, tx.owner, tx.receiver, tx.resource, tx.amount, k, q);
      UndelegateSucceeds(s, tx.owner, tx.receiver, tx.resource, tx.amount);
    }
  }

  /** The locked balance is positive after every step of the run. */
  predicate StaysLocked(s: Ledger, txs: seq<Tx>, k: Key, q: int) {
    Locked(RunAll(s, txs), k, q) > 0 && (txs == [] || StaysLocked(s, txs[..|txs| - 1], k, q))
  }

  /** Along any stretch on which a locked balance stays positive, it and its expiry only grow. */
  lemma {:induction false} LockOnlyGrows(s: Ledger, txs: seq<Tx>, k: Key, q: int)
    requires LedgerOk(s) && k.lock && DelegateResource(q) && StaysLocked(s, txs, k, q)
    ensures var t := RunAll(s, txs);
            Locked(t, k, q) >= Locked(s, k, q) && LockExpiry(t, k, q) >= LockExpiry(s, k, q)
  {
    if txs != [] {
      var front := txs[..|txs| - 1];
      LockOnlyGrows(s, front, k, q);
      RunKeeps(s, front);
      StepHoldsLocks(RunAll(s, front), txs[|txs| - 1], k, q);
    }
  }

  /**
   * Over whole runs: a stretch on which the balance stayed positive ends only with the whole
   * balance leaving, at a time past the expiry the lock had then, which is no earlier than the
   * expiry it started with.
   */
  lemma LockLeavesAtOnce(s: Ledger, txs: seq<Tx>, tx: Tx, k: Key, q: int)
    requires LedgerOk(s) && k.lock && DelegateResource(q) && StaysLocked(s, txs, k, q)
    ensures var t := RunAll(s, txs);
            var u := Apply(t, tx).0;
            || (Locked(u, k, q) >= Locked(t, k, q) && LockExpiry(u, k, q) >= LockExpiry(t, k, q))
            || (Locked(u, k, q) == 0 && LockExpiry(s, k, q) <= LockExpiry(t, k, q) < t.now)
  {
    LockOnlyGrows(s, txs, k, q);
    RunKeeps(s, txs);
    StepHoldsLocks(RunAll(s, txs), tx, k, q);
  }

  /** Step `i` of the run took the whole locked balance, its expiry having passed. */
  ghost predicate LeftAt(s: Ledger, txs: seq<Tx>, k: Key, q: int, i: nat) {
    && i < |txs| && StaysLocked(s, txs[..i], k, q)
    && Locked(RunAll(s, txs[..i + 1]), k, q) == 0
    && var t := RunAll(s, txs[..i]);
    LockExpiry(s, k, q) <= LockExpiry(t, k, q) < t.now
  }

  lemma LeftAtExtends(s: Ledger, txs: seq<Tx>, k: Key, q: int, i: nat)
    requires txs != [] && LeftAt(s, txs[..|txs| - 1], k, q, i)
    ensures LeftAt(s, txs, k, q, i)
  {
    var front := txs[..|txs| - 1];
    assert front[..i] == txs[..i] && front[..i + 1] == txs[..i + 1];
  }

  lemma LeavesLast(s: Ledger, txs: seq<Tx>, k: Key, q: int)
    requires LedgerOk(s) && k.lock && DelegateResource(q) && txs != []
    requires StaysLocked(s, txs[..|txs| - 1], k, q) && Locked(RunAll(s, txs), k, q) <= 0
    ensures LeftAt(s, txs, k, q, |txs| - 1)
  {
    var n := |txs| - 1;
    LockLeavesAtOnce(s, txs[..n], txs[n], k, q);
    assert txs[..n + 1] == txs;
  }

  /** Every run: the balance stays positive and only grows, or it left at once at an expired step. */
  lemma {:induction false} LockHistory(s: Ledger, txs: seq<Tx>, k: Key, q: int)
    requires LedgerOk(s) && k.lock && DelegateResource(q) && Locked(s, k, q) > 0
    ensures StaysLocked(s, txs, k, q) || exists i: nat :: LeftAt(s, txs, k, q, i)
  {
    if txs != [] {
      var n := |txs| - 1;
      LockHistory(s, txs[..n], k, q);
      if !StaysLocked(s, txs[..n], k, q) {
        var i: nat :| LeftAt(s, txs[..n], k, q, i);
        LeftAtExtends(s, txs, k, q, i);
      } else if Locked(RunAll(s, txs), k, q) <= 0 {
        LeavesLast(s, txs, k, q);
      }
    }
  }

  /** In particular, until its expiry has passed a locked balance cannot leave. */
  lemma {:induction false} LockedUntilExpiry(s: Ledger, txs: seq<Tx>, k: Key, q: int)
    requires LedgerOk(s) && k.lock && DelegateResource(q)
    requires Locked(s, k, q) > 0
    requires LockExpiry(s, k, q) >= RunAll(s, txs).now
    ensures var t := RunAll(s, txs);
            Locked(t, k, q) >= Locked(s, k, q) && LockExpiry(t, k, q) >= LockExpiry(s, k, q)
  {
    if txs != [] {
      var front, tx := txs[..|txs| - 1], txs[|txs| - 1];
      var mid := RunAll(s, front);
      RunKeeps(s, front);
      StepHoldsLocks(mid, tx, k, q);
      LockedUntilExpiry(s, front, k, q);
    }
  }
}
