/** The engine as it runs: a loop over instructions updating one `World` object in place. */
module EngineLoop {
  import opened Words
  import opened Energy
  import opened WorldModel
  import opened Engine

  /** What `s`, decided in world `w`, comes to once a contract it enters has returned. */
  ghost function Finished(w: WorldState, env: Env, s: StepResult): (Outcome, WorldState)
    requires env.limit <= U64_MAX
    requires s.Entering? ==> Valid(s.m, env.limit) && s.forwarded <= env.limit - s.m.used
  {
    match s
    case Went(o, w', _) => (o, w')
    case Entering(_, _, _, _, _, _, _) =>
      var sub := RunFrame(w, CalleeEnv(env, s));
      (ReturnFrom(env, s, sub.exec), Settle(sub, |w.journal|))
  }

  /** What one instruction, callee included, does to the frame and the world. */
  ghost function Effect(w: WorldState, env: Env, m: Machine): (Outcome, WorldState)
    requires Valid(m, env.limit) && m.pc < |env.code|
  {
    Finished(w, env, StepAt(w, env, m))
  }

  /** A run is its first instruction followed by the rest. */
  lemma RunUnfolds(w: WorldState, env: Env, m: Machine)
    requires Valid(m, env.limit) && m.pc < |env.code|
    ensures var (o, w') := Effect(w, env, m);
            var r := Run(w, env, m);
            match o
            case Halted(e) => r.exec == e && r.world == w'
            case Next(m') => Valid(m', env.limit) && m.used < m'.used
                             && r.exec == Run(w', env, m').exec && r.world == Run(w', env, m').world
  {
    ContinueUnfolds(w, env, m.used, StepAt(w, env, m));
  }

  lemma ContinueUnfolds(w: WorldState, env: Env, floor: nat, s: StepResult)
    requires floor <= env.limit <= U64_MAX && Progress(s, floor, env.limit)
    ensures var (o, w') := Finished(w, env, s);
            var r := Continue(w, env, floor, s);
            match o
            case Halted(e) => r.exec == e && r.world == w'
            case Next(m') => Valid(m', env.limit) && floor < m'.used
                             && r.exec == Run(w', env, m').exec && r.world == Run(w', env, m').world
  {
  }

  /** `execute`: run a frame of `env` against `world`. */
  method ExecuteFrame(world: World, env: Env) returns (e: Exec)
    requires env.limit <= U64_MAX
    modifies world
    ensures e == RunFrame(old(world.View()), env).exec
    ensures world.View() == RunFrame(old(world.View()), env).world
    decreases env.limit, 4
  {
    if env.depth > MAX_CALL_DEPTH { return Exec(DepthLimit, 0, [], None); }
    var m := Fresh;
    ghost var goal := Run(world.View(), env, m);
    while m.pc < |env.code|
      invariant Valid(m, env.limit)
      invariant Run(world.View(), env, m).exec == goal.exec
      invariant Run(world.View(), env, m).world == goal.world
      decreases env.limit - m.used
    {
      RunUnfolds(world.View(), env, m);
      var o := ExecuteInstruction(world, env, m);
      match o
      case Halted(h) => return h;
      case Next(n) => m := n;
    }
    e := Exec(Stopped, m.used, [], Top(m.stack));
  }

  method ExecuteInstruction(world: World, env: Env, m: Machine) returns (o: Outcome)
    requires Valid(m, env.limit) && m.pc < |env.code|
    modifies world
    ensures (o, world.View()) == Effect(old(world.View()), env, m)
    decreases env.limit - m.used, 3
  {
    var f := Fetch(env, m);
    match f
    case Fault(e) => o := Halted(e);
    case Ready(op, b, m1) => o := ExecuteOp(world, env, m, op, b, m1);
  }

  method ExecuteOp(world: World, env: Env, ghost before: Machine, op: Op, b: byte, m: Machine) returns (o: Outcome)
    requires Valid(m, env.limit) && (op == Call ==> before.used < m.used) && before.used <= m.used
    modifies world
    ensures (o, world.View()) == Finished(old(world.View()), env, Step(old(world.View()), env, op, b, m))
    decreases env.limit - before.used, 2
  {
    if !TouchesWorld(op) {
      LocalStep(world.View(), env, op, b, m);
      o := LocalOp(op, b, env, m);
    } else if op == Call {
      CallStep(world.View(), env, b, m);
      o := ExecuteCall(world, env, before, m);
    } else if op == SelfDestruct {
      SelfDestructStep(world.View(), env, b, m);
      o := ExecuteSelfDestruct(world, env, b, m);
    } else {
      o := ExecuteStorage(world, env, op, b, m);
    }
  }

  method ExecuteStorage(world: World, env: Env, op: Op, b: byte, m: Machine) returns (o: Outcome)
    requires Valid(m, env.limit) && (op == LoadSlot || op == StoreSlot)
    modifies world
    ensures Step(old(world.View()), env, op, b, m) == Went(o, world.View(), true)
  {
    if op == LoadSlot {
      o := ExecuteLoad(world, env, m);
    } else {
      o := ExecuteStore(world, env, m);
    }
  }

  method ExecuteLoad(world: World, env: Env, m: Machine) returns (o: Outcome)
    requires Valid(m, env.limit)
    ensures Step(world.View(), env, LoadSlot, 0x54, m) == Went(o, world.View(), true)
  {
    if |m.stack| < 1 { return Underflow(m); }
    var v := world.Load(env.address, Peek(m.stack, 0));
    o := Push(Drop(m, 1), v);
  }

  method ExecuteStore(world: World, env: Env, m: Machine) returns (o: Outcome)
    requires Valid(m, env.limit)
    modifies world
    ensures Step(old(world.View()), env, StoreSlot, 0x55, m) == Went(o, world.View(), true)
  {
    if |m.stack| < 2 { return Underflow(m); }
    var key, value := Peek(m.stack, 0), Peek(m.stack, 1);
    var current := world.Load(env.address, key);
    o := PayStore(env, m, current);
    if o.Next? {
      world.Store(env.address, key, value);
    }
  }

  method ExecuteSelfDestruct(world: World, env: Env, b: byte, m: Machine) returns (o: Outcome)
    requires Valid(m, env.limit)
    modifies world
    ensures var s := SelfDestructOp(old(world.View()), env, b, m);
            o == s.o && world.View() == s.w
  {
    if world.backend.HostBacked? { return HaltWith(BadOpcode(b), m); }
    if |m.stack| < 1 { return Underflow(m); }
    if |env.address| != 20 { return HaltWith(BadOpcode(b), Drop(m, 1)); }
    var self, heir := FromBody(env.address), Beneficiary(Peek(m.stack, 0));
    var exists_ := world.Exists(heir);
    match Charge(m.used, env.limit, SuicideCost(exists_))
    case None => o := HaltWith(OutOfEnergy, Drop(m, 1));
    case Some(used) =>
      world.SelfDestruct(self, heir);
      o := HaltWith(SelfDestructed, Drop(m, 1).(used := used));
  }

  /** CALL: dispatch, run the callee on the same world, then commit or revert. */
  method ExecuteCall(world: World, env: Env, ghost before: Machine, m: Machine) returns (o: Outcome)
    requires Valid(m, env.limit) && before.used < m.used
    modifies world
    ensures (o, world.View()) == Finished(old(world.View()), env, CallOp(old(world.View()), env, m))
    decreases env.limit - before.used, 1
  {
    var plan := PlanCall(env, m);
    match plan
    case CallFault(e) => o := Halted(e);
    case Precompiled(m1, output, retOff, retLen) =>
      o := FinishCall(env, m1, true, output, retOff, retLen);
    case ToContract(m1, callee, input, requested, retOff, retLen) =>
      var code := world.Code(callee);
      if code == [] { return FinishCall(env, m1, false, [], retOff, retLen); }
      var s := Entering(m1, callee, code, input, Forwarded(m1, env.limit, requested), retOff, retLen);
      o := EnterContract(world, env, before, s);
  }

  method EnterContract(world: World, env: Env, ghost before: Machine, s: StepResult) returns (o: Outcome)
    requires s.Entering? && Valid(s.m, env.limit) && s.forwarded <= env.limit - s.m.used
    requires before.used < s.m.used
    modifies world
    ensures (o, world.View()) == Finished(old(world.View()), env, s)
    decreases env.limit - before.used, 0
  {
    var cp := world.Checkpoint();
    var sub := ExecuteFrame(world, CalleeEnv(env, s));
    var ok := IsSuccess(sub.halt);
    if ok { world.Keep(cp); } else { world.Revert(cp); }
    o := FinishCall(env, ChargeSilently(s.m, env.limit, sub.energyUsed), ok, sub.returnData, s.retOff, s.retLen);
  }
}
