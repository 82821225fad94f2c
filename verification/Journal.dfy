/** What `revert_to` restores, exactly, and when it restores everything. */
module Journal {
  import opened Words
  import opened WorldModel

  // -- revert_to in closed form -------------------------------------------

  /** The value the earliest record for a storage slot remembers. */
  function EarliestStorage(j: seq<Entry>, key: Slot): Option<Option<Word>> {
    if j == [] then None
    else if j[0].Storage? && j[0].key == key then Some(j[0].prev)
    else EarliestStorage(j[1..], key)
  }

  function EarliestBalance(j: seq<Entry>, a: Address): Option<int> {
    if j == [] then None
    else if j[0].BalanceOf? && j[0].addr == a then Some(j[0].prevBalance)
    else EarliestBalance(j[1..], a)
  }

  function BurnTotal(j: seq<Entry>): int {
    if j == [] then 0
    else BurnTotal(j[..|j| - 1]) + if j[|j| - 1].Burn? then j[|j| - 1].amount else 0
  }

  lemma {:induction false} EarliestSnoc(j: seq<Entry>, e: Entry, key: Slot, a: Address)
    ensures EarliestStorage(j + [e], key) ==
            if EarliestStorage(j, key).Some? then EarliestStorage(j, key)
            else if e.Storage? && e.key == key then Some(e.prev) else None
    ensures EarliestBalance(j + [e], a) ==
            if EarliestBalance(j, a).Some? then EarliestBalance(j, a)
            else if e.BalanceOf? && e.addr == a then Some(e.prevBalance) else None
  {
    if j != [] {
      EarliestSnoc(j[1..], e, key, a);
      assert (j + [e])[1..] == j[1..] + [e];
    }
  }

  lemma {:induction false} WithoutMembership(s: seq<Address>, a: Address, b: Address)
    ensures b in Without(s, a) <==> b in s && b != a
  {
    if s != [] {
      WithoutMembership(s[..|s| - 1], a, b);
      assert s == s[..|s| - 1] + [s[|s| - 1]];
    }
  }

  lemma {:induction false} WithoutAbsent(s: seq<Address>, a: Address)
    requires a !in s
    ensures Without(s, a) == s
  {
    if s != [] {
      WithoutAbsent(s[..|s| - 1], a);
    }
  }

  /**
   * `r` is `w` with the records `undone` taken back: each location holds what its EARLIEST
   * record says, and a location with no record keeps its present value.
   */
  ghost predicate RestoredFrom(r: WorldState, w: WorldState, undone: seq<Entry>, key: Slot, a: Address) {
    && RestoredStorage(r, w, undone, key)
    && RestoredBalance(r, w, undone, a)
    && RestoredMarks(r, w, undone, a)
    && r.code == w.code && r.backend == w.backend
  }

  ghost predicate RestoredStorage(r: WorldState, w: WorldState, undone: seq<Entry>, key: Slot) {
    Lookup(r.storage, key) == (if EarliestStorage(undone, key).Some?
                               then EarliestStorage(undone, key).value else Lookup(w.storage, key))
  }

  ghost predicate RestoredBalance(r: WorldState, w: WorldState, undone: seq<Entry>, a: Address) {
    Balance(r, a) == (if EarliestBalance(undone, a).Some?
                      then EarliestBalance(undone, a).value else Balance(w, a))
  }

  ghost predicate RestoredMarks(r: WorldState, w: WorldState, undone: seq<Entry>, a: Address) {
    && (a in r.accounts <==> a in w.accounts && AccountCreate(a) !in undone)
    && (a in r.suicides <==> a in w.suicides && SuicideOf(a) !in undone)
    && r.burned == w.burned - BurnTotal(undone)
  }

  lemma UndoTopMarks(w: WorldState, a: Address)
    requires w.journal != []
    ensures var e := w.journal[|w.journal| - 1];
            var u := UndoTop(w);
            && (a in u.accounts <==> a in w.accounts && e != AccountCreate(a))
            && (a in u.suicides <==> a in w.suicides && e != SuicideOf(a))
            && u.burned == w.burned - (if e.Burn? then e.amount else 0)
            && u.code == w.code && u.backend == w.backend
  {
    var e := w.journal[|w.journal| - 1];
    if e.SuicideOf? {
      WithoutMembership(w.suicides, e.victim, a);
    }
  }

  lemma UndoTopSlot(w: WorldState, key: Slot)
    requires w.journal != []
    ensures var e := w.journal[|w.journal| - 1];
            Lookup(UndoTop(w).storage, key) ==
            if e.Storage? && e.key == key then e.prev else Lookup(w.storage, key)
  {
  }

  lemma UndoTopBalance(w: WorldState, a: Address)
    requires w.journal != []
    ensures var e := w.journal[|w.journal| - 1];
            Balance(UndoTop(w), a) ==
            if e.BalanceOf? && e.addr == a then e.prevBalance else Balance(w, a)
  {
  }

  /** One more record taken back. */
  lemma RestoredStep(r: WorldState, w: WorldState, u: WorldState, rest: seq<Entry>, key: Slot, a: Address)
    requires w.journal != [] && u == UndoTop(w)
    requires RestoredFrom(r, u, rest, key, a)
    ensures RestoredFrom(r, w, rest + [w.journal[|w.journal| - 1]], key, a)
  {
    var e := w.journal[|w.journal| - 1];
    EarliestSnoc(rest, e, key, a);
    UndoTopMarks(w, a);
    UndoTopSlot(w, key);
    UndoTopBalance(w, a);
    assert RestoredMarks(r, w, rest + [e], a) by {
      assert (rest + [e])[..|rest|] == rest;
    }
  }

  /** Reverting pops records one by one; its result is given by the earliest records. */
  lemma {:induction false} RevertRestoresEarliestRecords(w: WorldState, cp: nat, key: Slot, a: Address)
    requires cp <= |w.journal|
    ensures RestoredFrom(RevertTo(w, cp), w, w.journal[cp..], key, a)
    decreases |w.journal|
  {
    if |w.journal| > cp {
      var u := UndoTop(w);
      RevertRestoresEarliestRecords(u, cp, key, a);
      RestoredStep(RevertTo(w, cp), w, u, u.journal[cp..], key, a);
      assert w.journal[cp..] == u.journal[cp..] + [w.journal[|w.journal| - 1]];
    }
  }

  // -- when reverting restores everything ---------------------------------

  /** Two worlds no reader can tell apart (balances are compared as read). */
  ghost predicate Same(v: WorldState, w: WorldState) {
    && v.storage == w.storage && v.code == w.code && v.backend == w.backend
    && v.accounts == w.accounts && v.suicides == w.suicides && v.burned == w.burned
    && forall a :: Balance(v, a) == Balance(w, a)
  }

  /** Equal worlds answer every query alike. */
  lemma SameObservables(v: WorldState, w: WorldState, body: Body, slot: Word, a: Address)
    requires Same(v, w)
    ensures Sload(v, body, slot) == Sload(w, body, slot)
    ensures GetCode(v, body) == GetCode(w, body)
    ensures Balance(v, a) == Balance(w, a)
    ensures AccountExists(v, a) == AccountExists(w, a)
    ensures (a in v.suicides) == (a in w.suicides)
    ensures v.burned == w.burned
  {
  }

  lemma UndoTopKeepsFields(v: WorldState, w: WorldState)
    requires v.journal == w.journal && v.journal != []
    requires v.storage == w.storage && v.code == w.code && v.backend == w.backend
    requires v.accounts == w.accounts && v.suicides == w.suicides && v.burned == w.burned
    ensures var x, y := UndoTop(v), UndoTop(w);
            && x.storage == y.storage && x.code == y.code && x.backend == y.backend
            && x.accounts == y.accounts && x.suicides == y.suicides && x.burned == y.burned
  {
    match v.journal[|v.journal| - 1]
    case Storage(_, _) =>
    case BalanceOf(_, _) =>
    case AccountCreate(_) =>
    case SuicideOf(_) =>
    case Burn(_) =>
  }

  lemma UndoTopKeepsSame(v: WorldState, w: WorldState)
    requires Same(v, w) && v.journal == w.journal && v.journal != []
    ensures Same(UndoTop(v), UndoTop(w))
  {
    UndoTopKeepsFields(v, w);
    forall a
      ensures Balance(UndoTop(v), a) == Balance(UndoTop(w), a)
    {
      UndoTopBalance(v, a);
      UndoTopBalance(w, a);
    }
  }

  lemma {:induction false} RevertKeepsSame(v: WorldState, w: WorldState, cp: nat)
    requires Same(v, w) && v.journal == w.journal
    ensures Same(RevertTo(v, cp), RevertTo(w, cp))
    decreases |v.journal|
  {
    if |v.journal| > cp {
      UndoTopKeepsSame(v, w);
      RevertKeepsSame(UndoTop(v), UndoTop(w), cp);
    }
  }

  lemma {:induction false} RevertInTwoStages(w: WorldState, inner: nat, outer: nat)
    requires outer <= inner
    ensures RevertTo(RevertTo(w, inner), outer) == RevertTo(w, outer)
    decreases |w.journal|
  {
    if |w.journal| > inner {
      RevertInTwoStages(UndoTop(w), inner, outer);
    }
  }

  /** `v` grew out of `w` and reverting to `w`'s checkpoint gives `w` back. */
  ghost predicate Undoable(w: WorldState, v: WorldState) {
    w.journal <= v.journal && Same(RevertTo(v, |w.journal|), w)
  }

  lemma UndoableTransitive(u: WorldState, v: WorldState, w: WorldState)
    requires Undoable(u, v) && Undoable(v, w)
    ensures Undoable(u, w)
  {
    RevertInTwoStages(w, |v.journal|, |u.journal|);
    RevertKeepsSame(RevertTo(w, |v.journal|), v, |u.journal|);
  }

  /** A world that differs only unobservably, with the same journal, is undoable. */
  lemma SameIsUndoable(w: WorldState, v: WorldState)
    requires Same(v, w) && v.journal == w.journal
    ensures Undoable(w, v)
  {
  }

  lemma SstoreUndoable(w: WorldState, a: Body, slot: Word, v: Word)
    requires !w.backend.HostBacked?
    ensures Undoable(w, Sstore(w, a, slot, v))
  {
    var s := Sstore(w, a, slot, v);
    assert RevertTo(s, |w.journal|) == UndoTop(s);
    assert UndoTop(s).storage == w.storage;
  }

  lemma WriteBalanceUndoable(w: WorldState, a: Address, new_: int)
    ensures Undoable(w, WriteBalance(w, a, new_))
  {
    var s := WriteBalance(w, a, new_);
    assert RevertTo(s, |w.journal|) == UndoTop(s);
  }

  lemma EnsureAccountUndoable(w: WorldState, a: Address)
    ensures Undoable(w, EnsureAccount(w, a))
  {
    var s := EnsureAccount(w, a);
    if a !in w.accounts {
      assert RevertTo(s, |w.journal|) == UndoTop(s);
      assert UndoTop(s).accounts == w.accounts;
    }
  }

  lemma AddBurnUndoable(w: WorldState, amount: int)
    requires FitsI64(w.burned + amount)
    ensures Undoable(w, AddBurn(w, amount))
  {
    var s := AddBurn(w, amount);
    if amount != 0 {
      assert RevertTo(s, |w.journal|) == UndoTop(s);
    }
  }

  lemma MarkSuicideUndoable(w: WorldState, a: Address)
    ensures Undoable(w, MarkSuicide(w, a))
  {
    var s := MarkSuicide(w, a);
    if a !in w.suicides {
      assert RevertTo(s, |w.journal|) == UndoTop(s);
      assert s.suicides[..|s.suicides| - 1] == w.suicides;
      WithoutAbsent(w.suicides, a);
    }
  }

  lemma SuicideUndoable(w: WorldState, contract: Address, beneficiary: Address)
    requires SuicideStaysExact(w, contract, beneficiary)
    ensures Undoable(w, Suicide(w, contract, beneficiary))
  {
    var bal := Balance(w, contract);
    if beneficiary == contract {
      var w1 := WriteBalance(w, contract, 0);
      var w2 := AddBurn(w1, bal);
      WriteBalanceUndoable(w, contract, 0);
      AddBurnUndoable(w1, bal);
      MarkSuicideUndoable(w2, contract);
      UndoableTransitive(w, w1, w2);
      UndoableTransitive(w, w2, MarkSuicide(w2, contract));
    } else {
      var w1 := EnsureAccount(w, beneficiary);
      var w2 := WriteBalance(w1, contract, 0);
      var w3 := WriteBalance(w2, beneficiary, SaturatingAdd64(Balance(w1, beneficiary), bal));
      EnsureAccountUndoable(w, beneficiary);
      WriteBalanceUndoable(w1, contract, 0);
      WriteBalanceUndoable(w2, beneficiary, SaturatingAdd64(Balance(w1, beneficiary), bal));
      MarkSuicideUndoable(w3, contract);
      UndoableTransitive(w, w1, w2);
      UndoableTransitive(w, w2, w3);
      UndoableTransitive(w, w3, MarkSuicide(w3, contract));
    }
  }

  /**
   * Committing drops undo records, so a revert to an older checkpoint does not bring back
   * what a committed write replaced: here slot 0 keeps the committed value.
   */
  lemma CommittedWriteSurvivesOuterRevert(w: WorldState, a: Body, v: Word)
    requires w.backend == InWorld && v != Sload(w, a, 0)
    ensures var committed := Commit(Sstore(w, a, 0, v), |w.journal|);
            Sload(RevertTo(committed, |w.journal|), a, 0) == v != Sload(w, a, 0)
  {
  }

  /**
   * After `commit(inner)`, reverting to an older checkpoint undoes exactly the locations
   * with a record between the two checkpoints; every other location keeps the committed value.
   */
  lemma RevertAfterCommit(w: WorldState, outer: nat, inner: nat, key: Slot, a: Address)
    requires outer <= inner <= |w.journal|
    ensures RestoredFrom(RevertTo(Commit(w, inner), outer), w, w.journal[outer..inner], key, a)
  {
    var c := Commit(w, inner);
    RevertRestoresEarliestRecords(c, outer, key, a);
    assert c.journal[outer..] == w.journal[outer..inner];
  }

  // -- transfer and suicide move value ------------------------------------

  /** A transfer moves exactly `amount`, and conserves value iff it is not to oneself. */
  lemma TransferMovesValue(w: WorldState, src: Address, dst: Address, amount: int, other: Address)
    requires other != src && other != dst
    ensures var r := Transfer(w, src, dst, amount);
            && Balance(r, other) == Balance(w, other)
            && (src != dst ==> Balance(r, src) == Balance(w, src) - amount
                               && Balance(r, dst) == Balance(w, dst) + amount)
            && (src == dst ==> Balance(r, src) == Balance(w, src) + amount)
  {
  }

  /** SELFDESTRUCT moves the whole balance to the heir; nothing else changes hands. */
  lemma SuicideInherits(w: WorldState, c: Address, b: Address, other: Address)
    requires b != c && other != c && other != b
    requires FitsI64(Balance(w, b) + Balance(w, c))
    ensures var r := Suicide(w, c, b);
            && Balance(r, c) == 0 && c in r.suicides
            && Balance(r, b) == Balance(w, b) + Balance(w, c) && AccountExists(r, b)
            && Balance(r, other) == Balance(w, other) && r.burned == w.burned
  {
    var w1 := EnsureAccount(w, b);
    var w2 := WriteBalance(w1, c, 0);
    assert Balance(w2, other) == Balance(w, other) && Balance(w2, b) == Balance(w, b);
  }

  /** A SELFDESTRUCT that names itself burns the balance. */
  lemma SuicideBurns(w: WorldState, c: Address, other: Address)
    requires other != c && SuicideStaysExact(w, c, c)
    ensures var r := Suicide(w, c, c);
            && Balance(r, c) == 0 && c in r.suicides
            && r.burned == w.burned + Balance(w, c)
            && Balance(r, other) == Balance(w, other)
  {
    var w1 := AddBurn(WriteBalance(w, c, 0), Balance(w, c));
    assert Balance(w1, c) == 0 && Balance(w1, other) == Balance(w, other);
  }
}
