/**
 * Balances over whole runs: only SELFDESTRUCT moves them, a frame that fails has moved none itself,
 * and so no account that is not self-destructed ends a run with less than it had.
 */
module RunBalances {
  import opened Words
  import opened WorldModel
  import opened Journal
  import opened Engine
  import opened EngineProofs

  // -- what a failing frame has on the journal ------------------------------

  ghost predicate StorageOnly(j: seq<Entry>) {
    forall i | 0 <= i < |j| :: j[i].Storage?
  }

  /** `v` continues the journal of `w` with storage records only. */
  ghost predicate StorageTail(w: WorldState, v: WorldState) {
    w.journal <= v.journal && StorageOnly(v.journal[|w.journal|..])
  }

  lemma StorageTailTransitive(u: WorldState, v: WorldState, w: WorldState)
    requires StorageTail(u, v) && StorageTail(v, w)
    ensures StorageTail(u, w)
  {
    var n, k := |u.journal|, |v.journal|;
    forall i | 0 <= i < |w.journal| - n
      ensures w.journal[n..][i].Storage?
    {
      if n + i < k {
        assert w.journal[n + i] == v.journal[n + i] == v.journal[n..][i];
      } else {
        assert w.journal[n + i] == w.journal[k..][n + i - k];
      }
    }
  }

  lemma SstoreTail(w: WorldState, a: Body, slot: Word, v: Word)
    ensures StorageTail(w, Sstore(w, a, slot, v))
  {
  }

  /** An instruction that does not end the frame by SELFDESTRUCT leaves storage records only. */
  ghost predicate StepTail(w: WorldState, s: StepResult) {
    s.Went? ==> && w.journal <= s.w.journal
                && ((s.o.Halted? && s.o.e.halt == SelfDestructed) || StorageTail(w, s.w))
  }

  lemma OpTail(w: WorldState, env: Env, op: Op, b: byte, m: Machine)
    requires Valid(m, env.limit)
    ensures StepTail(w, Step(w, env, op, b, m))
  {
    if !TouchesWorld(op) {
      LocalStep(w, env, op, b, m);
    } else if op == Call {
      CallStep(w, env, b, m);
      CallKeepsGround(w, env, m);
    } else if op == SelfDestruct {
      SelfDestructStep(w, env, b, m);
      SelfDestructTail(w, env, b, m);
    } else {
      StorageOpTail(w, env, op, b, m);
    }
  }

  lemma SelfDestructTail(w: WorldState, env: Env, b: byte, m: Machine)
    requires Valid(m, env.limit)
    ensures StepTail(w, SelfDestructOp(w, env, b, m))
  {
    SelfDestructAppendsRecords(w, env, b, m);
  }

  lemma StorageOpTail(w: WorldState, env: Env, op: Op, b: byte, m: Machine)
    requires Valid(m, env.limit) && (op == LoadSlot || op == StoreSlot)
    ensures StepTail(w, Step(w, env, op, b, m))
  {
    if |m.stack| >= 2 {
      SstoreTail(w, env.address, Peek(m.stack, 0), Peek(m.stack, 1));
    }
  }

  /** A frame that does not self-destruct leaves only its own storage records. */
  ghost predicate RunTail(w: WorldState, r: RunResult) {
    r.exec.halt == SelfDestructed || StorageTail(w, r.world)
  }

  lemma {:induction false} RunLeavesStorage(w: WorldState, env: Env, m: Machine)
    requires Valid(m, env.limit)
    ensures RunTail(w, Run(w, env, m))
    decreases env.limit - m.used, 1
  {
    if m.pc < |env.code| {
      match Fetch(env, m) {
        case Fault(_) =>
        case Ready(op, b, m1) => OpTail(w, env, op, b, m1);
      }
      ContinueLeavesStorage(w, env, m.used, StepAt(w, env, m));
    }
  }

  lemma {:induction false} FrameLeavesStorage(w: WorldState, env: Env)
    requires env.limit <= U64_MAX
    ensures RunTail(w, RunFrame(w, env))
    decreases env.limit, 2
  {
    if env.depth <= MAX_CALL_DEPTH {
      RunLeavesStorage(w, env, Fresh);
    }
  }

  lemma {:induction false} ContinueLeavesStorage(w: WorldState, env: Env, floor: nat, s: StepResult)
    requires floor <= env.limit <= U64_MAX && Progress(s, floor, env.limit) && StepTail(w, s)
    ensures RunTail(w, Continue(w, env, floor, s))
    decreases env.limit - floor, 0
  {
    var r := Continue(w, env, floor, s);
    match s
    case Went(o, w', _) =>
      if o.Next? {
        RunLeavesStorage(w', env, o.m);
        if r.exec.halt != SelfDestructed {
          StorageTailTransitive(w, w', r.world);
        }
      }
    case Entering(_, _, _, _, _, _, _) =>
      var sub := RunFrame(w, CalleeEnv(env, s));
      CallLeavesJournal(w, CalleeEnv(env, s));
      var o := ReturnFrom(env, s, sub.exec);
      if o.Next? {
        RunLeavesStorage(Settle(sub, |w.journal|), env, o.m);
      }
  }

  // -- so a revert moves no balance -----------------------------------------

  /** The parts of a world that storage writes do not touch. */
  predicate SameHoldings(w: WorldState, v: WorldState) {
    w.balances == v.balances && w.backend == v.backend && w.suicides == v.suicides && w.burned == v.burned
    && w.accounts == v.accounts
  }

  lemma {:induction false} RevertKeepsHoldings(w: WorldState, cp: nat)
    requires cp <= |w.journal| && StorageOnly(w.journal[cp..])
    ensures SameHoldings(w, RevertTo(w, cp))
    decreases |w.journal|
  {
    if |w.journal| > cp {
      var n := |w.journal| - 1;
      assert w.journal[n] == w.journal[cp..][n - cp];
      var u := UndoTop(w);
      assert forall i | 0 <= i < |u.journal| - cp :: u.journal[cp..][i] == w.journal[cp..][i];
      RevertKeepsHoldings(u, cp);
    }
  }

  /** Whatever a callee did to balances stays, whether it succeeds or fails. */
  lemma CallKeepsHoldings(w: WorldState, callee: Env)
    requires callee.limit <= U64_MAX
    ensures SameHoldings(RunFrame(w, callee).world, Settle(RunFrame(w, callee), |w.journal|))
  {
    var sub := RunFrame(w, callee);
    FrameLeavesStorage(w, callee);
    if !IsSuccess(sub.exec.halt) {
      RevertKeepsHoldings(sub.world, |w.journal|);
    }
  }

  // -- balances grow unless the account dies --------------------------------

  /** Every balance lies between zero and the largest `i64`. */
  ghost predicate Sound(w: WorldState) {
    forall a :: 0 <= Balance(w, a) <= I64_MAX
  }

  /** From `w` to `v` balances stay in range, and an account has no less or was self-destructed. */
  ghost predicate Grows(w: WorldState, v: WorldState) {
    && Sound(v)
    && (forall a | a in w.suicides :: a in v.suicides)
    && (forall a :: a in v.suicides || Balance(v, a) >= Balance(w, a))
  }

  lemma GrowsTransitive(u: WorldState, v: WorldState, w: WorldState)
    requires Grows(u, v) && Grows(v, w)
    ensures Grows(u, w)
  {
    forall a
      ensures a in w.suicides || Balance(w, a) >= Balance(u, a)
    {
      assert a in v.suicides || Balance(v, a) >= Balance(u, a);
      assert a in w.suicides || Balance(w, a) >= Balance(v, a);
    }
  }

  lemma SameHoldingsGrows(w: WorldState, v: WorldState)
    requires Sound(w) && SameHoldings(w, v)
    ensures Grows(w, v)
  {
    forall a
      ensures Balance(v, a) == Balance(w, a)
    {
      assert 0 <= Balance(w, a) <= I64_MAX;
    }
  }

  /** What SELFDESTRUCT of `c` in favour of `b` leaves account `a`. */
  function AfterSuicide(w: WorldState, c: Address, b: Address, a: Address): int {
    if a == c then 0 else if a == b then SaturatingAdd64(Balance(w, b), Balance(w, c)) else Balance(w, a)
  }

  lemma BurnBalance(w: WorldState, c: Address, a: Address)
    ensures Balance(Suicide(w, c, c), a) == AfterSuicide(w, c, c, a)
  {
  }

  lemma InheritBalance(w: WorldState, c: Address, b: Address, a: Address)
    requires b != c
    ensures Balance(Suicide(w, c, b), a) == AfterSuicide(w, c, b, a)
  {
    var w1 := EnsureAccount(w, b);
    var w2 := WriteBalance(w1, c, 0);
    assert Balance(w1, a) == Balance(w, a) && Balance(w1, b) == Balance(w, b);
    assert Balance(w2, a) == if a == c then 0 else Balance(w, a);
  }

  lemma SuicideMarks(w: WorldState, c: Address, b: Address, a: Address)
    ensures a in Suicide(w, c, b).suicides <==> a in w.suicides || a == c
  {
  }

  lemma SuicideBalance(w: WorldState, c: Address, b: Address, a: Address)
    ensures Balance(Suicide(w, c, b), a) == AfterSuicide(w, c, b, a)
    ensures a in Suicide(w, c, b).suicides <==> a in w.suicides || a == c
  {
    SuicideMarks(w, c, b, a);
    if b == c {
      BurnBalance(w, c, a);
    } else {
      InheritBalance(w, c, b, a);
    }
  }

  lemma SuicideGrows(w: WorldState, c: Address, b: Address)
    requires Sound(w)
    ensures Grows(w, Suicide(w, c, b))
  {
    forall a
      ensures 0 <= Balance(Suicide(w, c, b), a) <= I64_MAX
      ensures a in w.suicides ==> a in Suicide(w, c, b).suicides
      ensures a in Suicide(w, c, b).suicides || Balance(Suicide(w, c, b), a) >= Balance(w, a)
    {
      SuicideBalance(w, c, b, a);
      assert 0 <= Balance(w, a) <= I64_MAX && 0 <= Balance(w, b) <= I64_MAX && 0 <= Balance(w, c) <= I64_MAX;
    }
  }

  lemma OpGrows(w: WorldState, env: Env, op: Op, b: byte, m: Machine)
    requires Valid(m, env.limit) && Sound(w) && !w.backend.HostBacked?
    ensures var s := Step(w, env, op, b, m); s.Went? ==> Grows(w, s.w)
  {
    if !TouchesWorld(op) {
      LocalStep(w, env, op, b, m);
      SameHoldingsGrows(w, w);
    } else if op == Call {
      CallStep(w, env, b, m);
      CallKeepsGround(w, env, m);
      SameHoldingsGrows(w, w);
    } else if op == SelfDestruct {
      SelfDestructStep(w, env, b, m);
      SelfDestructGrows(w, env, b, m);
    } else {
      StorageHoldings(w, env, op, b, m);
      SameHoldingsGrows(w, Step(w, env, op, b, m).w);
    }
  }

  lemma StorageHoldings(w: WorldState, env: Env, op: Op, b: byte, m: Machine)
    requires Valid(m, env.limit) && !w.backend.HostBacked? && (op == LoadSlot || op == StoreSlot)
    ensures SameHoldings(w, Step(w, env, op, b, m).w)
  {
  }

  lemma SelfDestructGrows(w: WorldState, env: Env, b: byte, m: Machine)
    requires Valid(m, env.limit) && Sound(w)
    ensures Grows(w, SelfDestructOp(w, env, b, m).w)
  {
    SameHoldingsGrows(w, w);
    if |m.stack| >= 1 {
      SuicideGrows(w, FromBody(env.address), Beneficiary(Peek(m.stack, 0)));
    }
  }

  lemma {:induction false} RunGrows(w: WorldState, env: Env, m: Machine)
    requires Valid(m, env.limit) && Sound(w) && !w.backend.HostBacked?
    ensures Grows(w, Run(w, env, m).world)
    decreases env.limit - m.used, 1
  {
    if m.pc < |env.code| {
      SameHoldingsGrows(w, w);
      match Fetch(env, m) {
        case Fault(_) =>
        case Ready(op, b, m1) =>
          OpGrows(w, env, op, b, m1);
          StepKeepsGround(w, env, op, b, m1);
      }
      ContinueGrows(w, env, m.used, StepAt(w, env, m));
    } else {
      SameHoldingsGrows(w, w);
    }
  }

  /** Over every frame, nested calls, commits and reverts included. */
  lemma {:induction false} FrameGrows(w: WorldState, env: Env)
    requires env.limit <= U64_MAX && Sound(w) && !w.backend.HostBacked?
    ensures Grows(w, RunFrame(w, env).world)
    decreases env.limit, 2
  {
    if env.depth <= MAX_CALL_DEPTH {
      RunGrows(w, env, Fresh);
    } else {
      SameHoldingsGrows(w, w);
    }
  }

  lemma {:induction false} ContinueGrows(w: WorldState, env: Env, floor: nat, s: StepResult)
    requires floor <= env.limit <= U64_MAX && Progress(s, floor, env.limit)
    requires Sound(w) && !w.backend.HostBacked?
    requires s.Went? ==> Grows(w, s.w) && SameGround(w, s.w)
    ensures Grows(w, Continue(w, env, floor, s).world)
    decreases env.limit - floor, 0, 1
  {
    var r := Continue(w, env, floor, s);
    match s
    case Went(o, w', _) =>
      if o.Next? {
        RunGrows(w', env, o.m);
        GrowsTransitive(w, w', r.world);
      }
    case Entering(_, _, _, _, _, _, _) => EnteringGrows(w, env, floor, s);
  }

  lemma {:induction false} EnteringGrows(w: WorldState, env: Env, floor: nat, s: StepResult)
    requires floor <= env.limit <= U64_MAX && Progress(s, floor, env.limit)
    requires Sound(w) && !w.backend.HostBacked? && s.Entering?
    ensures Grows(w, Continue(w, env, floor, s).world)
    decreases env.limit - floor, 0, 0
  {
    var callee := CalleeEnv(env, s);
    var sub := RunFrame(w, callee);
    var w' := Settle(sub, |w.journal|);
    FrameGrows(w, callee);
    FrameKeepsGround(w, callee);
    CallKeepsHoldings(w, callee);
    SameHoldingsGrows(sub.world, w');
    GrowsTransitive(w, sub.world, w');
    var o := ReturnFrom(env, s, sub.exec);
    if o.Next? {
      RunGrows(w', env, o.m);
      GrowsTransitive(w, w', Continue(w, env, floor, s).world);
    }
  }
}
