/** What every run of the engine keeps: energy, the caller's journal, the caller's world. */
module EngineProofs {
  import opened Words
  import opened Energy
  import opened WorldModel
  import opened Journal
  import opened Engine

  // -- energy -------------------------------------------------------------

  /**
   * The all-but-one-64th rule of EIP-150: charging a callee's energy never fails (its
   * discarded result is always true), and the caller keeps at least one 64th of what it had.
   */
  lemma CallerKeepsOneSixtyFourth(w: WorldState, env: Env, m: Machine)
    requires Valid(m, env.limit) && m.pc < |env.code|
    requires StepAt(w, env, m).Entering?
    ensures var s := StepAt(w, env, m);
            var sub := RunFrame(w, CalleeEnv(env, s));
            && Charge(s.m.used, env.limit, sub.exec.energyUsed).Some?
            && env.limit - (s.m.used + sub.exec.energyUsed) >= (env.limit - s.m.used) / 64
  {
    var s := StepAt(w, env, m);
    var f := Fetch(env, m);
    var p := PlanCall(env, f.m);
    assert s == CallOp(w, env, f.m);
    assert s.forwarded == Forwarded(p.m, env.limit, p.requested);
  }

  // -- the caller's journal -----------------------------------------------

  /** An instruction started in `w` left the world at `w'`, appending undoable records. */
  ghost predicate Appends(w: WorldState, w': WorldState, exact: bool) {
    && w.journal <= w'.journal
    && w'.backend.HostBacked? == w.backend.HostBacked?
    && (!w.backend.HostBacked? && exact ==> Undoable(w, w'))
  }

  ghost predicate StepAppends(w: WorldState, s: StepResult) {
    s.Went? ==> && Appends(w, s.w, s.exact)
                && (!s.exact ==> s.o.Halted? && s.o.e.halt == SelfDestructed)
  }

  /** One instruction only appends records, and what it does can be undone from them. */
  lemma StepAppendsRecords(w: WorldState, env: Env, m: Machine)
    requires Valid(m, env.limit) && m.pc < |env.code|
    ensures StepAppends(w, StepAt(w, env, m))
  {
    match Fetch(env, m)
    case Fault(_) =>
    case Ready(op, b, m1) => OpAppendsRecords(w, env, op, b, m1);
  }

  lemma OpAppendsRecords(w: WorldState, env: Env, op: Op, b: byte, m: Machine)
    requires Valid(m, env.limit)
    ensures StepAppends(w, Step(w, env, op, b, m))
  {
    if op == StoreSlot {
      StoreAppendsRecords(w, env, b, m);
    } else if op == SelfDestruct {
      SelfDestructAppendsRecords(w, env, b, m);
    } else if op == Call {
      CallAppendsRecords(w, env, b, m);
    } else {
      PureAppendsRecords(w, env, op, b, m);
    }
  }

  lemma UnchangedAppends(w: WorldState, o: Outcome)
    ensures StepAppends(w, Went(o, w, true))
  {
  }

  lemma CallAppendsRecords(w: WorldState, env: Env, b: byte, m: Machine)
    requires Valid(m, env.limit)
    ensures StepAppends(w, Step(w, env, Call, b, m))
  {
    var s := CallOp(w, env, m);
    if s.Went? {
      UnchangedAppends(w, s.o);
    }
  }

  lemma PureAppendsRecords(w: WorldState, env: Env, op: Op, b: byte, m: Machine)
    requires Valid(m, env.limit) && op != StoreSlot && op != SelfDestruct && op != Call
    ensures StepAppends(w, Step(w, env, op, b, m))
  {
    if op == LoadSlot {
      UnchangedAppends(w, Step(w, env, op, b, m).o);
    } else {
      LocalStep(w, env, op, b, m);
      UnchangedAppends(w, LocalOp(op, b, env, m));
    }
  }

  lemma StoreAppendsRecords(w: WorldState, env: Env, b: byte, m: Machine)
    requires Valid(m, env.limit)
    ensures var s := Step(w, env, StoreSlot, b, m);
            Appends(w, s.w, true) && s.exact
  {
    if |m.stack| >= 2 && !w.backend.HostBacked? {
      SstoreUndoable(w, env.address, Peek(m.stack, 0), Peek(m.stack, 1));
    }
  }

  lemma SuicideAppendsRecords(w: WorldState, contract: Address, beneficiary: Address)
    ensures w.journal <= Suicide(w, contract, beneficiary).journal
    ensures Suicide(w, contract, beneficiary).backend == w.backend
  {
  }

  lemma SelfDestructAppendsRecords(w: WorldState, env: Env, b: byte, m: Machine)
    requires Valid(m, env.limit)
    ensures var s := SelfDestructOp(w, env, b, m);
            && Appends(w, s.w, s.exact)
            && (!s.exact ==> s.o.e.halt == SelfDestructed)
  {
    if !w.backend.HostBacked? && |m.stack| >= 1 && |env.address| == 20 {
      var self, heir := FromBody(env.address), Beneficiary(Peek(m.stack, 0));
      SuicideAppendsRecords(w, self, heir);
      if SuicideStaysExact(w, self, heir) {
        SuicideUndoable(w, self, heir);
      }
    }
  }

  /** A frame never alters the journal below its own checkpoint. */
  lemma {:induction false} RunKeepsJournal(w: WorldState, env: Env, m: Machine)
    requires Valid(m, env.limit)
    ensures w.journal <= Run(w, env, m).world.journal
    decreases env.limit - m.used, 1
  {
    if m.pc < |env.code| {
      StepAppendsRecords(w, env, m);
      ContinueKeepsJournal(w, env, m.used, StepAt(w, env, m));
    }
  }

  lemma {:induction false} FrameKeepsJournal(w: WorldState, env: Env)
    requires env.limit <= U64_MAX
    ensures w.journal <= RunFrame(w, env).world.journal
    decreases env.limit, 2
  {
    if env.depth <= MAX_CALL_DEPTH {
      RunKeepsJournal(w, env, Fresh);
    }
  }

  lemma {:induction false} ContinueKeepsJournal(w: WorldState, env: Env, floor: nat, s: StepResult)
    requires floor <= env.limit <= U64_MAX && Progress(s, floor, env.limit)
    requires s.Went? ==> w.journal <= s.w.journal
    ensures w.journal <= Continue(w, env, floor, s).world.journal
    decreases env.limit - floor, 0
  {
    match s
    case Went(o, w', _) =>
      if o.Next? {
        RunKeepsJournal(w', env, o.m);
      }
    case Entering(_, _, _, _, _, _, _) =>
      var sub := RunFrame(w, CalleeEnv(env, s));
      FrameKeepsJournal(w, CalleeEnv(env, s));
      var o := ReturnFrom(env, s, sub.exec);
      if o.Next? {
        RunKeepsJournal(Settle(sub, |w.journal|), env, o.m);
      }
  }

  /** Whether it succeeds or fails, a call leaves the caller's journal exactly as it was. */
  lemma CallLeavesJournal(w: WorldState, callee: Env)
    requires callee.limit <= U64_MAX
    ensures Settle(RunFrame(w, callee), |w.journal|).journal == w.journal
  {
    FrameKeepsJournal(w, callee);
  }

  // -- the caller's world -------------------------------------------------

  /**
   * A run with no committed inner call can be undone completely, unless its own
   * SELFDESTRUCT burned past the `i64` range.
   */
  ghost predicate UndoneFrom(w: WorldState, r: RunResult) {
    r.commits == 0 ==> && (r.exec.halt != SelfDestructed ==> r.exact)
                       && (r.exact ==> Undoable(w, r.world))
  }

  lemma {:induction false} RunIsUndoable(w: WorldState, env: Env, m: Machine)
    requires Valid(m, env.limit) && !w.backend.HostBacked?
    ensures UndoneFrom(w, Run(w, env, m))
    decreases env.limit - m.used, 1
  {
    if m.pc < |env.code| {
      StepAppendsRecords(w, env, m);
      ContinueIsUndoable(w, env, m.used, StepAt(w, env, m));
    }
  }

  lemma {:induction false} FrameIsUndoable(w: WorldState, env: Env)
    requires env.limit <= U64_MAX && !w.backend.HostBacked?
    ensures UndoneFrom(w, RunFrame(w, env))
    decreases env.limit, 2
  {
    if env.depth <= MAX_CALL_DEPTH {
      RunIsUndoable(w, env, Fresh);
    }
  }

  lemma {:induction false} ContinueIsUndoable(w: WorldState, env: Env, floor: nat, s: StepResult)
    requires floor <= env.limit <= U64_MAX && Progress(s, floor, env.limit)
    requires !w.backend.HostBacked?
    requires StepAppends(w, s)
    ensures UndoneFrom(w, Continue(w, env, floor, s))
    decreases env.limit - floor, 0, 1
  {
    var r := Continue(w, env, floor, s);
    if r.commits == 0 {
      match s
      case Went(o, w', exact) =>
        if o.Next? {
          RunIsUndoable(w', env, o.m);
          if r.exact {
            UndoableTransitive(w, w', r.world);
          }
        }
      case Entering(_, _, _, _, _, _, _) =>
        EnteringIsUndoable(w, env, floor, s);
    }
  }

  lemma {:induction false} EnteringIsUndoable(w: WorldState, env: Env, floor: nat, s: StepResult)
    requires floor <= env.limit <= U64_MAX && Progress(s, floor, env.limit)
    requires !w.backend.HostBacked? && s.Entering?
    ensures UndoneFrom(w, Continue(w, env, floor, s))
    decreases env.limit - floor, 0, 0
  {
    var r := Continue(w, env, floor, s);
    var sub := RunFrame(w, CalleeEnv(env, s));
    if r.commits == 0 {
      FrameIsUndoable(w, CalleeEnv(env, s));
      var w' := Settle(sub, |w.journal|);
      SameIsUndoable(w, w');
      var o := ReturnFrom(env, s, sub.exec);
      if o.Next? {
        RunIsUndoable(w', env, o.m);
        if r.exact {
          UndoableTransitive(w, w', r.world);
        }
      }
    }
  }

  /**
   * A failing callee in which no inner call was committed leaves every observable of the
   * world, and the journal, exactly as before the CALL.
   */
  lemma FailedCallRestoresWorld(w: WorldState, callee: Env)
    requires callee.limit <= U64_MAX && !w.backend.HostBacked?
    requires !IsSuccess(RunFrame(w, callee).exec.halt) && RunFrame(w, callee).commits == 0
    ensures var after := Settle(RunFrame(w, callee), |w.journal|);
            Same(after, w) && after.journal == w.journal
  {
    FrameIsUndoable(w, callee);
  }

  /** Only the CALL byte decodes to CALL. */
  lemma DecodesToCall(b: byte)
    requires Decode(b) == Some(Call)
    ensures b == CALL
  {
  }

  /** Code without a CALL byte enters no contract, so it commits none. */
  lemma {:induction false} CallFreeCodeEntersNothing(w: WorldState, env: Env, m: Machine)
    requires Valid(m, env.limit) && CALL !in env.code
    ensures Run(w, env, m).entered == 0 && Run(w, env, m).commits == 0
    decreases env.limit - m.used
  {
    if m.pc < |env.code| {
      var s := StepAt(w, env, m);
      CallFreeStepStays(w, env, m);
      if s.o.Next? {
        CallFreeCodeEntersNothing(s.w, env, s.o.m);
      }
    }
  }

  lemma CallFreeStepStays(w: WorldState, env: Env, m: Machine)
    requires Valid(m, env.limit) && m.pc < |env.code| && CALL !in env.code
    ensures StepAt(w, env, m).Went?
  {
    var f := Fetch(env, m);
    if f.Ready? && f.op == Call {
      DecodesToCall(f.b);
      assert false;
    }
  }

  /** What a caller can check beforehand: a failing callee whose code cannot call restores the world. */
  lemma FailedCallFreeCalleeRestoresWorld(w: WorldState, callee: Env)
    requires callee.limit <= U64_MAX && !w.backend.HostBacked?
    requires CALL !in callee.code && !IsSuccess(RunFrame(w, callee).exec.halt)
    ensures var after := Settle(RunFrame(w, callee), |w.journal|);
            Same(after, w) && after.journal == w.journal
  {
    if callee.depth <= MAX_CALL_DEPTH {
      CallFreeCodeEntersNothing(w, callee, Fresh);
    }
    FailedCallRestoresWorld(w, callee);
  }

  /**
   * In general a failing callee leaves each location at what its earliest surviving record
   * says; a location whose records were all dropped by inner commits keeps its new value.
   */
  lemma FailedCallUndoesSurvivingRecords(w: WorldState, callee: Env, key: Slot, a: Address)
    requires callee.limit <= U64_MAX
    requires !IsSuccess(RunFrame(w, callee).exec.halt)
    ensures var sub := RunFrame(w, callee);
            && w.journal <= sub.world.journal
            && RestoredFrom(Settle(sub, |w.journal|), sub.world, sub.world.journal[|w.journal|..], key, a)
  {
    FrameKeepsJournal(w, callee);
    RevertRestoresEarliestRecords(RunFrame(w, callee).world, |w.journal|, key, a);
  }

  // -- what a run never touches ---------------------------------------------

  /** Same backend and same deployed code. */
  predicate SameGround(w: WorldState, v: WorldState) {
    w.backend == v.backend && w.code == v.code
  }

  lemma {:induction false} RevertKeepsGround(w: WorldState, cp: nat)
    ensures SameGround(w, RevertTo(w, cp))
    decreases |w.journal|
  {
    if |w.journal| > cp {
      UndoKeepsGround(w);
      RevertKeepsGround(UndoTop(w), cp);
    }
  }

  lemma UndoKeepsGround(w: WorldState)
    requires w.journal != []
    ensures SameGround(w, UndoTop(w))
  {
  }

  lemma SuicideKeepsGround(w: WorldState, contract: Address, beneficiary: Address)
    ensures SameGround(w, Suicide(w, contract, beneficiary))
  {
  }

  lemma StepKeepsGround(w: WorldState, env: Env, op: Op, b: byte, m: Machine)
    requires Valid(m, env.limit) && !w.backend.HostBacked?
    ensures var s := Step(w, env, op, b, m); s.Went? ==> SameGround(w, s.w)
  {
    if !TouchesWorld(op) {
      LocalStep(w, env, op, b, m);
    } else if op == SelfDestruct {
      SelfDestructStep(w, env, b, m);
      SelfDestructKeepsGround(w, env, b, m);
    } else if op == Call {
      CallStep(w, env, b, m);
      CallKeepsGround(w, env, m);
    } else {
      StorageKeepsGround(w, env, op, b, m);
    }
  }

  lemma StorageKeepsGround(w: WorldState, env: Env, op: Op, b: byte, m: Machine)
    requires Valid(m, env.limit) && !w.backend.HostBacked? && (op == LoadSlot || op == StoreSlot)
    ensures SameGround(w, Step(w, env, op, b, m).w)
  {
  }

  lemma SelfDestructKeepsGround(w: WorldState, env: Env, b: byte, m: Machine)
    requires Valid(m, env.limit)
    ensures SameGround(w, SelfDestructOp(w, env, b, m).w)
  {
    if |m.stack| >= 1 {
      SuicideKeepsGround(w, FromBody(env.address), Beneficiary(Peek(m.stack, 0)));
    }
  }

  lemma CallKeepsGround(w: WorldState, env: Env, m: Machine)
    requires Valid(m, env.limit)
    ensures var s := CallOp(w, env, m); s.Went? ==> s.w == w
  {
  }

  /** Off the host path no run changes the backend or any contract's code. */
  lemma {:induction false} RunKeepsGround(w: WorldState, env: Env, m: Machine)
    requires Valid(m, env.limit) && !w.backend.HostBacked?
    ensures SameGround(w, Run(w, env, m).world)
    decreases env.limit - m.used, 1
  {
    if m.pc < |env.code| {
      match Fetch(env, m) {
        case Fault(_) =>
        case Ready(op, b, m1) => StepKeepsGround(w, env, op, b, m1);
      }
      ContinueKeepsGround(w, env, m.used, StepAt(w, env, m));
    }
  }

  lemma {:induction false} FrameKeepsGround(w: WorldState, env: Env)
    requires env.limit <= U64_MAX && !w.backend.HostBacked?
    ensures SameGround(w, RunFrame(w, env).world)
    decreases env.limit, 2
  {
    if env.depth <= MAX_CALL_DEPTH {
      RunKeepsGround(w, env, Fresh);
    }
  }

  lemma {:induction false} ContinueKeepsGround(w: WorldState, env: Env, floor: nat, s: StepResult)
    requires floor <= env.limit <= U64_MAX && Progress(s, floor, env.limit) && !w.backend.HostBacked?
    requires s.Went? ==> SameGround(w, s.w)
    ensures SameGround(w, Continue(w, env, floor, s).world)
    decreases env.limit - floor, 0
  {
    match s
    case Went(o, w', _) =>
      if o.Next? {
        RunKeepsGround(w', env, o.m);
      }
    case Entering(_, _, _, _, _, _, _) =>
      var sub := RunFrame(w, CalleeEnv(env, s));
      FrameKeepsGround(w, CalleeEnv(env, s));
      RevertKeepsGround(sub.world, |w.journal|);
      var o := ReturnFrom(env, s, sub.exec);
      if o.Next? {
        RunKeepsGround(Settle(sub, |w.journal|), env, o.m);
      }
  }
}
