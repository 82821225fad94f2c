/** What single Stake 2.0 transactions do, and which sequences of them undo each other. */
module StakeEffects {
  import opened Words
  import opened Stake
  import opened StakeProofs

  // -- who is affected ------------------------------------------------------

  predicate Concerns(tx: Tx, a: Address) {
    match tx
    case Freeze(owner, _, _) => a == owner
    case Unfreeze(owner, _, _) => a == owner
    case Withdraw(owner) => a == owner
    case CancelAll(owner) => a == owner
    case Delegate(owner, receiver, _, _, _, _) => a == owner || a == receiver
    case Undelegate(owner, receiver, _, _) => a == owner || a == receiver
    case Tick(_) => false
  }

  /** A transaction leaves every account it does not name as it was. */
  lemma OthersUnchanged(s: Ledger, tx: Tx, a: Address)
    requires !Concerns(tx, a)
    ensures a in Apply(s, tx).0.accounts <==> a in s.accounts
    ensures a in s.accounts ==> Apply(s, tx).0.accounts[a] == s.accounts[a]
  {
    match tx
    case Delegate(owner, receiver, r, amount, lock, period) =>
      if CanDelegate(s, owner, receiver, r, amount, lock, period) {
        DelegateOthers(s, owner, receiver, r, amount, lock, period, a);
      }
    case Undelegate(owner, receiver, r, amount) =>
      if CanUndelegate(s, owner, receiver, r, amount) {
        UndelegateOthers(s, owner, receiver, r, amount, a);
      }
    case _ =>
  }

  lemma DelegateOthers(s: Ledger, owner: Address, receiver: Address, r: int, amount: int, lock: bool, period: int,
                       a: Address)
    requires CanDelegate(s, owner, receiver, r, amount, lock, period) && a != owner && a != receiver
    ensures var t := DoDelegate(s, owner, receiver, r, amount, lock, period).0;
            (a in t.accounts <==> a in s.accounts) && (a in s.accounts ==> t.accounts[a] == s.accounts[a])
  {
  }

  lemma UndelegateOthers(s: Ledger, owner: Address, receiver: Address, r: int, amount: int, a: Address)
    requires CanUndelegate(s, owner, receiver, r, amount) && a != owner && a != receiver
    ensures var t := DoUndelegate(s, owner, receiver, r, amount).0;
            (a in t.accounts <==> a in s.accounts) && (a in s.accounts ==> t.accounts[a] == s.accounts[a])
  {
  }

  /** In good states a transaction that does not go through changes nothing at all. */
  lemma UnsuccessfulChangesNothing(s: Ledger, tx: Tx)
    requires LedgerOk(s) && Apply(s, tx).1 != Done
    ensures Apply(s, tx).0 == s
  {
    if tx.Undelegate? && CanUndelegate(s, tx.owner, tx.receiver, tx.resource, tx.amount) {
      UndelegateSucceeds(s, tx.owner, tx.receiver, tx.resource, tx.amount);
    }
  }

  // -- the frozen list ------------------------------------------------------

  lemma {:induction false} FindUnchanged(fs: seq<FreezeV2>, gs: seq<FreezeV2>, k: int)
    requires |fs| == |gs| && forall i | 0 <= i < |fs| :: fs[i].kind == gs[i].kind
    ensures Find(fs, k) == Find(gs, k)
  {
    if fs != [] && fs[0].kind != k {
      FindUnchanged(fs[1..], gs[1..], k);
    }
  }

  /** `add_frozen_v2` changes the amount of its own resource and of no other. */
  lemma {:induction false} AddFrozenExact(fs: seq<FreezeV2>, kind: int, delta: int, k: int)
    ensures FrozenAmount(AddFrozen(fs, kind, delta), k) == FrozenAmount(fs, k) + if k == kind then delta else 0
  {
    var i, gs := Find(fs, kind), AddFrozen(fs, kind, delta);
    if i < |fs| {
      FindUnchanged(fs, gs, k);
    } else {
      FindInSnoc(fs, FreezeV2(kind, delta), k);
    }
  }

  lemma {:induction false} FindInSnoc(fs: seq<FreezeV2>, f: FreezeV2, k: int)
    ensures Find(fs + [f], k) == if Find(fs, k) < |fs| then Find(fs, k) else if f.kind == k then |fs| else |fs| + 1
  {
    var gs := fs + [f];
    var i, j := Find(fs, k), Find(gs, k);
    assert forall n | 0 <= n < |fs| :: gs[n] == fs[n];
    assert gs[|fs|] == f;
  }

  /** Taking out and putting back the same amount gives the same list back. */
  lemma {:induction false} AddFrozenBack(fs: seq<FreezeV2>, kind: int, delta: int)
    requires Find(fs, kind) < |fs|
    ensures AddFrozen(AddFrozen(fs, kind, delta), kind, -delta) == fs
  {
    var i, gs := Find(fs, kind), AddFrozen(fs, kind, delta);
    FindUnchanged(fs, gs, kind);
    BackAt(fs, gs, AddFrozen(gs, kind, -delta), i, kind, delta);
  }

  lemma BackAt(fs: seq<FreezeV2>, gs: seq<FreezeV2>, hs: seq<FreezeV2>, i: nat, kind: int, delta: int)
    requires i < |fs| && fs[i].kind == kind
    requires gs == fs[i := FreezeV2(kind, fs[i].amount + delta)]
    requires hs == gs[i := FreezeV2(kind, gs[i].amount - delta)]
    ensures hs == fs
  {
  }

  // -- round trips ----------------------------------------------------------

  lemma FrozenEntryExists(fs: seq<FreezeV2>, kind: int)
    requires FrozenOk(fs) && FrozenTotal(fs, kind) > 0
    ensures Find(fs, kind) < |fs|
  {
    FrozenTotalIsAmount(fs, kind);
  }

  /** What one pair of accounts has between them, locked or not. */
  function PairFrozen(records: map<Key, Record>, owner: Address, receiver: Address, r: int): int {
    Frozen(RecordAt(records, Key(owner, receiver, true)), r) + Frozen(RecordAt(records, Key(owner, receiver, false)), r)
  }

  lemma MergeKeepsPair(records: map<Key, Record>, owner: Address, receiver: Address, r: int, now: int, o: Address,
                       v: Address, q: int)
    requires DelegateResource(r) && DelegateResource(q)
    ensures PairFrozen(MergeExpired(records, owner, receiver, r, now), o, v, q) == PairFrozen(records, o, v, q)
  {
  }

  lemma MovedBack(o: Account, r: int, amount: int)
    requires Find(o.frozen, r) < |o.frozen|
    ensures MoveToDelegated(MoveToDelegated(o, r, amount), r, -amount) == o
  {
    AddFrozenBack(o.frozen, r, -amount);
  }

  lemma AcquiredBack(a: Account, r: int, amount: int)
    requires Acquired(a, r) >= 0 && amount >= 0
    ensures AddAcquired(AddAcquired(a, r, amount), r, -amount) == a
  {
  }

  /** A delegation without a lock can be undelegated at once. */
  lemma DelegatedIsAvailable(s: Ledger, t: Ledger, owner: Address, receiver: Address, r: int, amount: int)
    requires RecordsOk(s) && CanDelegate(s, owner, receiver, r, amount, false, 0)
    requires t == DoDelegate(s, owner, receiver, r, amount, false, 0).0
    ensures CanUndelegate(t, owner, receiver, r, amount)
    ensures Key(owner, receiver, false) in MergeExpired(t.records, owner, receiver, r, t.now)
    ensures DoUndelegate(t, owner, receiver, r, amount).1 == Done
  {
    var lk, uk := Key(owner, receiver, true), Key(owner, receiver, false);
    assert lk in s.records ==> RecordOk(s, lk);
    assert uk in s.records ==> RecordOk(s, uk);
  }

  lemma RoundTripShape(s: Ledger, t: Ledger, u: Ledger, owner: Address, receiver: Address, r: int, amount: int)
    requires CanDelegate(s, owner, receiver, r, amount, false, 0)
    requires t == DoDelegate(s, owner, receiver, r, amount, false, 0).0
    requires CanUndelegate(t, owner, receiver, r, amount) && u == DoUndelegate(t, owner, receiver, r, amount).0
    requires Key(owner, receiver, false) in MergeExpired(t.records, owner, receiver, r, t.now)
    ensures var o := MoveToDelegated(s.accounts[owner], r, amount);
            var v := AddAcquired(s.accounts[receiver], r, amount);
            u.accounts == s.accounts[receiver := AddAcquired(v, r, -amount)][owner := MoveToDelegated(o, r, -amount)]
  {
  }

  lemma AccountsBack(s: Ledger, t: Ledger, u: Ledger, owner: Address, receiver: Address, r: int, amount: int)
    requires LedgerOk(s) && CanDelegate(s, owner, receiver, r, amount, false, 0)
    requires t == DoDelegate(s, owner, receiver, r, amount, false, 0).0
    requires CanUndelegate(t, owner, receiver, r, amount) && u == DoUndelegate(t, owner, receiver, r, amount).0
    requires Key(owner, receiver, false) in MergeExpired(t.records, owner, receiver, r, t.now)
    ensures u.accounts == s.accounts
  {
    RoundTripShape(s, t, u, owner, receiver, r, amount);
    assert AccountOk(s.accounts[owner], s.now);
    FrozenEntryExists(s.accounts[owner].frozen, r);
    MovedBack(s.accounts[owner], r, amount);
    AcquiredNonNegative(s, Key(owner, receiver, false), r);
    AcquiredBack(s.accounts[receiver], r, amount);
  }

  lemma AcquiredNonNegative(s: Ledger, k: Key, r: int)
    requires LedgerOk(s) && k.receiver in s.accounts && DelegateResource(r)
    ensures Acquired(s.accounts[k.receiver], r) >= 0
  {
    ReceiverShareBound(s, k, r);
    assert Backed(s, k.receiver, r);
    assert k in s.records ==> RecordOk(s, k);
  }

  /** A delegation adds its amount to its own pair and resource only. */
  lemma DelegateAddsToPair(s: Ledger, t: Ledger, owner: Address, receiver: Address, r: int, amount: int,
                           o: Address, v: Address, q: int)
    requires CanDelegate(s, owner, receiver, r, amount, false, 0) && DelegateResource(q)
    requires t == DoDelegate(s, owner, receiver, r, amount, false, 0).0
    ensures PairFrozen(t.records, o, v, q) ==
            PairFrozen(s.records, o, v, q) + if o == owner && v == receiver && q == r then amount else 0
  {
  }

  lemma PutTakesFromPair(records: map<Key, Record>, uk: Key, r: int, amount: int, o: Address, v: Address, q: int)
    requires uk in records && !uk.lock && DelegateResource(r) && DelegateResource(q)
    ensures var u := records[uk];
            PairFrozen(PutOrDelete(records, uk, SetFrozen(u, r, Frozen(u, r) - amount)), o, v, q) ==
            PairFrozen(records, o, v, q) - if o == uk.owner && v == uk.receiver && q == r then amount else 0
  {
  }

  lemma UndelegatedRecords(t: Ledger, owner: Address, receiver: Address, r: int, amount: int)
    requires CanUndelegate(t, owner, receiver, r, amount)
    requires Key(owner, receiver, false) in MergeExpired(t.records, owner, receiver, r, t.now)
    ensures var merged, uk := MergeExpired(t.records, owner, receiver, r, t.now), Key(owner, receiver, false);
            DoUndelegate(t, owner, receiver, r, amount).0.records ==
            PutOrDelete(merged, uk, SetFrozen(merged[uk], r, Frozen(merged[uk], r) - amount))
  {
  }

  /** An undelegation takes it from there. */
  lemma UndelegateTakesFromPair(t: Ledger, u: Ledger, owner: Address, receiver: Address, r: int, amount: int,
                                o: Address, v: Address, q: int)
    requires CanUndelegate(t, owner, receiver, r, amount) && u == DoUndelegate(t, owner, receiver, r, amount).0
    requires Key(owner, receiver, false) in MergeExpired(t.records, owner, receiver, r, t.now)
    requires DelegateResource(q)
    ensures PairFrozen(u.records, o, v, q) ==
            PairFrozen(t.records, o, v, q) - if o == owner && v == receiver && q == r then amount else 0
  {
    UndelegatedRecords(t, owner, receiver, r, amount);
    MergeKeepsPair(t.records, owner, receiver, r, t.now, o, v, q);
    var merged := MergeExpired(t.records, owner, receiver, r, t.now);
    PutTakesFromPair(merged, Key(owner, receiver, false), r, amount, o, v, q);
  }

  /**
   * Undelegating what was just delegated restores every account exactly, and what every pair of
   * accounts has between them (an expired lock may have been folded in on the way).
   */
  lemma DelegateThenUndelegateRestores(s: Ledger, owner: Address, receiver: Address, r: int, amount: int,
                                       o: Address, v: Address, q: int)
    requires LedgerOk(s) && CanDelegate(s, owner, receiver, r, amount, false, 0) && DelegateResource(q)
    ensures var t := DoDelegate(s, owner, receiver, r, amount, false, 0).0;
            && CanUndelegate(t, owner, receiver, r, amount)
            && var (u, outcome) := DoUndelegate(t, owner, receiver, r, amount);
            && outcome == Done && u.accounts == s.accounts
            && PairFrozen(u.records, o, v, q) == PairFrozen(s.records, o, v, q)
  {
    var t := DoDelegate(s, owner, receiver, r, amount, false, 0).0;
    DelegatedIsAvailable(s, t, owner, receiver, r, amount);
    var u := DoUndelegate(t, owner, receiver, r, amount).0;
    AccountsBack(s, t, u, owner, receiver, r, amount);
    DelegateAddsToPair(s, t, owner, receiver, r, amount, o, v, q);
    UndelegateTakesFromPair(t, u, owner, receiver, r, amount, o, v, q);
  }

  lemma PendingSnoc(us: seq<UnFreezeV2>, u: UnFreezeV2, now: int)
    ensures Pending(us + [u], now) == Pending(us, now) + if u.expire > now then [u] else []
    ensures MaturedTotal(us + [u], now) == MaturedTotal(us, now) + if u.expire > now then 0 else u.amount
  {
    assert (us + [u])[..|us|] == us;
  }

  lemma AddFrozenIs(fs: seq<FreezeV2>, kind: int, delta: int)
    ensures AddFrozen(fs, kind, delta) ==
            if Find(fs, kind) < |fs| then AddAt(fs, Find(fs, kind), delta) else fs + [FreezeV2(kind, delta)]
  {
  }

  /** Where the entry of one exists, the order of two additions does not matter. */
  lemma {:induction false} AddFrozenCommutes(fs: seq<FreezeV2>, kind: int, delta: int, k: int, d: int)
    requires Find(fs, kind) < |fs|
    ensures AddFrozen(AddFrozen(fs, kind, delta), k, d) == AddFrozen(AddFrozen(fs, k, d), kind, delta)
  {
    var gs, hs := AddFrozen(fs, kind, delta), AddFrozen(fs, k, d);
    var i, j := Find(fs, kind), Find(fs, k);
    AddFrozenIs(fs, kind, delta);
    AddFrozenIs(fs, k, d);
    FindUnchanged(fs, gs, k);
    AddFrozenIs(gs, k, d);
    AddFrozenIs(hs, kind, delta);
    if j < |fs| {
      FindUnchanged(fs, hs, kind);
      AddAtTwo(fs, i, delta, j, d);
    } else {
      FindInSnoc(fs, FreezeV2(k, d), kind);
      AddAtFront(fs, FreezeV2(k, d), i, delta);
    }
  }

  lemma AddAtFront(fs: seq<FreezeV2>, f: FreezeV2, i: nat, delta: int)
    requires i < |fs|
    ensures AddAt(fs + [f], i, delta) == AddAt(fs, i, delta) + [f]
  {
  }

  function AddAt(fs: seq<FreezeV2>, i: nat, delta: int): seq<FreezeV2>
    requires i < |fs|
  {
    fs[i := FreezeV2(fs[i].kind, fs[i].amount + delta)]
  }

  lemma AddAtTwo(fs: seq<FreezeV2>, i: nat, delta: int, j: nat, d: int)
    requires i < |fs| && j < |fs|
    ensures AddAt(AddAt(fs, i, delta), j, d) == AddAt(AddAt(fs, j, d), i, delta)
  {
  }

  lemma {:induction false} RefreezeKeepsEntry(fs: seq<FreezeV2>, us: seq<UnFreezeV2>, kind: int)
    requires Find(fs, kind) < |fs|
    ensures Find(Refreeze(fs, us), kind) < |Refreeze(fs, us)|
  {
    if us != [] {
      var u := us[|us| - 1];
      RefreezeKeepsEntry(fs, us[..|us| - 1], kind);
      var gs := Refreeze(fs, us[..|us| - 1]);
      if Find(gs, u.kind) < |gs| {
        FindUnchanged(gs, AddFrozen(gs, u.kind, u.amount), kind);
      } else {
        FindInSnoc(gs, FreezeV2(u.kind, u.amount), kind);
      }
    }
  }

  /** An amount may be taken out before or after the queue is refrozen. */
  lemma {:induction false} RefreezeCommutes(fs: seq<FreezeV2>, us: seq<UnFreezeV2>, kind: int, delta: int)
    requires Find(fs, kind) < |fs|
    ensures Refreeze(AddFrozen(fs, kind, delta), us) == AddFrozen(Refreeze(fs, us), kind, delta)
  {
    if us != [] {
      var u := us[|us| - 1];
      var front := us[..|us| - 1];
      RefreezeCommutes(fs, front, kind, delta);
      RefreezeKeepsEntry(fs, front, kind);
      AddFrozenCommutes(Refreeze(fs, front), kind, delta, u.kind, u.amount);
    }
  }

  /**
   * Cancelling undoes an unfreeze that has not matured: the account ends as if only the cancel had
   * happened, list order included, whatever else was in its queue.
   */
  lemma {:induction false} UnfreezeThenCancel(a: Account, amount: int, r: int, now: int, expire: int)
    requires Find(a.frozen, r) < |a.frozen| && expire > now
    ensures AfterCancel(AfterUnfreeze(a, amount, r, expire), now) == AfterCancel(a, now)
  {
    QueueReturns(a.frozen, a.unfrozen, UnFreezeV2(r, amount, expire), now);
    CancelDependsOn(a, AfterUnfreeze(a, amount, r, expire), now);
  }

  /** Queueing an entry taken out of the frozen list changes neither the total due nor the refrozen list. */
  lemma {:induction false} QueueReturns(fs: seq<FreezeV2>, us: seq<UnFreezeV2>, u: UnFreezeV2, now: int)
    requires Find(fs, u.kind) < |fs| && u.expire > now
    ensures MaturedTotal(us + [u], now) == MaturedTotal(us, now)
    ensures Refreeze(AddFrozen(fs, u.kind, -u.amount), Pending(us + [u], now)) == Refreeze(fs, Pending(us, now))
  {
    PendingSnoc(us, u, now);
    RefreezeReturns(fs, Pending(us, now), u);
  }

  /** A cancel depends on the total due and the refrozen list only. */
  lemma {:induction false} CancelDependsOn(a: Account, b: Account, now: int)
    requires b == a.(frozen := b.frozen, unfrozen := b.unfrozen)
    requires MaturedTotal(b.unfrozen, now) == MaturedTotal(a.unfrozen, now)
    requires Refreeze(b.frozen, Pending(b.unfrozen, now)) == Refreeze(a.frozen, Pending(a.unfrozen, now))
    ensures AfterCancel(b, now) == AfterCancel(a, now)
  {
  }

  lemma {:induction false} RefreezeReturns(fs: seq<FreezeV2>, us: seq<UnFreezeV2>, u: UnFreezeV2)
    requires Find(fs, u.kind) < |fs|
    ensures Refreeze(AddFrozen(fs, u.kind, -u.amount), us + [u]) == Refreeze(fs, us)
  {
    RefreezeKeepsEntry(fs, us, u.kind);
    RefreezeCommutes(fs, us, u.kind, -u.amount);
    LastReturns(AddFrozen(fs, u.kind, -u.amount), us, u, Refreeze(fs, us));
  }

  lemma {:induction false} LastReturns(fs: seq<FreezeV2>, us: seq<UnFreezeV2>, u: UnFreezeV2, gs: seq<FreezeV2>)
    requires Find(gs, u.kind) < |gs| && Refreeze(fs, us) == AddFrozen(gs, u.kind, -u.amount)
    ensures Refreeze(fs, us + [u]) == gs
  {
    RefreezeSnoc(fs, us, u);
    ReturnedEntry(gs, u.kind, u.amount);
  }

  lemma {:induction false} ReturnedEntry(gs: seq<FreezeV2>, kind: int, amount: int)
    requires Find(gs, kind) < |gs|
    ensures AddFrozen(AddFrozen(gs, kind, -amount), kind, amount) == gs
  {
    AddFrozenBack(gs, kind, -amount);
  }

  lemma RefreezeSnoc(fs: seq<FreezeV2>, us: seq<UnFreezeV2>, u: UnFreezeV2)
    ensures Refreeze(fs, us + [u]) == AddFrozen(Refreeze(fs, us), u.kind, u.amount)
  {
    assert (us + [u])[..|us|] == us;
  }

  /**
   * Freezing, unfreezing and withdrawing after the delay leaves the balance, the queue and every
   * frozen amount as if only the withdrawal had happened.
   */
  lemma FreezeUnfreezeWithdraw(a: Account, amount: int, r: int, later: int, expire: int, k: int)
    requires expire <= later
    ensures var b := AfterWithdraw(AfterUnfreeze(AfterFreeze(a, amount, r), amount, r, expire), later);
            var c := AfterWithdraw(a, later);
            b.balance == c.balance && b.unfrozen == c.unfrozen && FrozenAmount(b.frozen, k) == FrozenAmount(c.frozen, k)
  {
    PendingSnoc(a.unfrozen, UnFreezeV2(r, amount, expire), later);
    FrozenAndBack(a.frozen, amount, r, k);
  }

  lemma {:induction false} FrozenAndBack(fs: seq<FreezeV2>, amount: int, r: int, k: int)
    ensures FrozenAmount(AddFrozen(AddFrozen(fs, r, amount), r, -amount), k) == FrozenAmount(fs, k)
  {
    AddFrozenExact(fs, r, amount, k);
    AddFrozenExact(AddFrozen(fs, r, amount), r, -amount, k);
  }
}
