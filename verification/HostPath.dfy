/**
 * The single-contract entry point: one contract over a persistent host. It shares the engine
 * with the multi-account path and agrees with it until SELFDESTRUCT or the entry of a contract.
 */
module HostPath {
  import opened Words
  import opened Energy
  import opened WorldModel
  import opened Engine
  import opened EngineProofs
  import EngineLoop

  datatype HostHalt =
    | HostStop | HostReturn | HostRevert | HostOutOfEnergy | HostStackUnderflow | HostStackOverflow
    | HostBadOpcode(code: byte) | HostBadJump

  datatype HostOutcome = HostOutcome(halt: HostHalt, stackTop: Option<Word>, energyUsed: nat, returnData: seq<byte>)

  function MapHalt(h: Halt): HostHalt {
    match h
    case Stopped | SelfDestructed => HostStop
    case Returned => HostReturn
    case Reverted => HostRevert
    case OutOfEnergy | DepthLimit => HostOutOfEnergy
    case StackUnderflow => HostStackUnderflow
    case StackOverflow => HostStackOverflow
    case BadOpcode(b) => HostBadOpcode(b)
    case BadJump => HostBadJump
  }

  /** A fresh world over a host's slots. */
  function HostWorld(slots: map<Word, Word>): WorldState {
    WorldState(map[], map[], map[], {}, [], 0, [], HostBacked(slots))
  }

  /** The host holds the slots that address `a` has in the multi-account world `w`. */
  ghost predicate Agree(h: WorldState, w: WorldState, a: Body) {
    && h.backend.HostBacked? && !w.backend.HostBacked?
    && h.code == map[]
    && forall slot: Word :: HostSload(h.backend.slots, slot) == Sload(w, a, slot)
  }

  lemma WritesAgree(h: WorldState, w: WorldState, a: Body, self: Body, key: Word, v: Word)
    requires Agree(h, w, a)
    ensures Agree(Sstore(h, self, key, v), Sstore(w, a, key, v), a)
  {
    var h', w' := Sstore(h, self, key, v), Sstore(w, a, key, v);
    forall slot: Word
      ensures HostSload(h'.backend.slots, slot) == Sload(w', a, slot)
    {
      assert HostSload(h.backend.slots, slot) == Sload(w, a, slot);
    }
  }

  // -- the executing address does not matter to local instructions ---------

  lemma StackOpIgnoresAddress(op: Op, b: byte, env: Env, a: Body, m: Machine)
    requires Valid(m, env.limit)
    ensures StackOp(op, b, env.(address := a), m) == StackOp(op, b, env, m)
  {
  }

  lemma LocalOpIgnoresAddress(op: Op, b: byte, env: Env, a: Body, m: Machine)
    requires Valid(m, env.limit)
    ensures LocalOp(op, b, env.(address := a), m) == LocalOp(op, b, env, m)
  {
    StackOpIgnoresAddress(op, b, env, a, m);
  }

  lemma PlanIgnoresAddress(env: Env, a: Body, m: Machine)
    requires Valid(m, env.limit)
    ensures PlanCall(env.(address := a), m) == PlanCall(env, m)
    ensures PlanCall(env, m).ToContract? ==> |PlanCall(env, m).callee| == 20
  {
  }

  // -- simulation ---------------------------------------------------------

  /** One instruction does the same on both paths, unless it is SELFDESTRUCT. */
  ghost predicate SameWent(sh: StepResult, sw: StepResult, a: Body) {
    && sh.Went? && sw.Went?
    && if sh.o.Halted? && sh.o.e.halt == BadOpcode(SELFDESTRUCT)
       then sw.o.Halted? && sw.o.e.halt != BadOpcode(SELFDESTRUCT)
       else sh.o == sw.o && Agree(sh.w, sw.w, a)
  }

  /** The same, unless the multi-account path enters a contract. */
  ghost predicate SameStep(sh: StepResult, sw: StepResult, a: Body) {
    sh.Went? && (sw.Entering? || SameWent(sh, sw, a))
  }

  lemma CallSimulates(h: WorldState, w: WorldState, env: Env, a: Body, m: Machine)
    requires Agree(h, w, a) && Valid(m, env.limit)
    ensures SameStep(CallOp(h, env, m), CallOp(w, env.(address := a), m), a)
  {
    PlanIgnoresAddress(env, a, m);
    PlanHalts(env, m);
    var p := PlanCall(env, m);
    match p
    case CallFault(_) =>
    case Precompiled(g, output, retOff, retLen) => FinishHalts(env, a, g, true, output, retOff, retLen);
    case ToContract(g, callee, _, _, retOff, retLen) =>
      if GetCode(w, callee) == [] {
        FinishHalts(env, a, g, false, [], retOff, retLen);
      }
  }

  lemma PlanHalts(env: Env, m: Machine)
    requires Valid(m, env.limit)
    ensures var p := PlanCall(env, m); p.CallFault? ==> p.e.halt == StackUnderflow || p.e.halt == OutOfEnergy
  {
  }

  lemma FinishHalts(env: Env, a: Body, m: Machine, success: bool, output: seq<byte>, retOff: nat, retLen: nat)
    requires Valid(m, env.limit)
    ensures var o := FinishCall(env, m, success, output, retOff, retLen);
            && FinishCall(env.(address := a), m, success, output, retOff, retLen) == o
            && (o.Halted? ==> o.e.halt == OutOfEnergy || o.e.halt == StackOverflow)
  {
  }

  /** Halts an instruction that stays in the frame can end with. */
  predicate PlainHalt(o: Outcome, b: byte) {
    o.Halted? ==> && o.e.halt != SelfDestructed && o.e.halt != DepthLimit
                  && (o.e.halt.BadOpcode? ==> o.e.halt.b == b)
  }

  lemma StackHalts(op: Op, b: byte, env: Env, m: Machine)
    requires Valid(m, env.limit)
    ensures PlainHalt(StackOp(op, b, env, m), b)
  {
  }

  lemma CopyHalts(source: seq<byte>, b: byte, env: Env, m: Machine)
    requires Valid(m, env.limit)
    ensures PlainHalt(CopyOp(source, env, m), b)
  {
  }

  lemma WordMemoryHalts(op: Op, b: byte, env: Env, m: Machine)
    requires Valid(m, env.limit)
    ensures PlainHalt(WordMemoryOp(op, env, m), b)
  {
  }

  lemma ReturnHalts(op: Op, b: byte, env: Env, m: Machine)
    requires Valid(m, env.limit)
    ensures PlainHalt(ReturnOp(op, env, m), b)
  {
  }

  lemma VoteHalts(b: byte, env: Env, m: Machine)
    requires Valid(m, env.limit)
    ensures PlainHalt(VoteOp(env, m), b)
  {
  }

  lemma CopyLocalHalts(op: Op, b: byte, env: Env, m: Machine)
    requires Valid(m, env.limit) && (op == CallDataCopy || op == ReturnDataCopy)
    ensures PlainHalt(LocalOp(op, b, env, m), b)
  {
    CopyHalts(if op == CallDataCopy then env.calldata else m.ret, b, env, m);
  }

  lemma WordLocalHalts(op: Op, b: byte, env: Env, m: Machine)
    requires Valid(m, env.limit) && (op == Mload || op == Mstore || op == Mstore8)
    ensures PlainHalt(LocalOp(op, b, env, m), b)
  {
    WordMemoryHalts(op, b, env, m);
  }

  lemma ReturnLocalHalts(op: Op, b: byte, env: Env, m: Machine)
    requires Valid(m, env.limit) && (op == Return || op == Revert)
    ensures PlainHalt(LocalOp(op, b, env, m), b)
  {
    ReturnHalts(op, b, env, m);
  }

  lemma MemoryHalts(op: Op, b: byte, env: Env, m: Machine)
    requires Valid(m, env.limit) && UsesMemory(op)
    ensures PlainHalt(LocalOp(op, b, env, m), b)
  {
    match op
    case CallDataCopy | ReturnDataCopy => CopyLocalHalts(op, b, env, m);
    case Mload | Mstore | Mstore8 => WordLocalHalts(op, b, env, m);
    case Return | Revert => ReturnLocalHalts(op, b, env, m);
    case VoteWitness => VoteHalts(b, env, m);
  }

  predicate UsesMemory(op: Op) {
    op in {CallDataCopy, ReturnDataCopy, Mload, Mstore, Mstore8, Return, Revert, VoteWitness}
  }

  lemma StackLocal(op: Op, b: byte, env: Env, m: Machine)
    requires Valid(m, env.limit) && !UsesMemory(op)
    ensures LocalOp(op, b, env, m) == StackOp(op, b, env, m)
  {
  }

  lemma LocalHalts(op: Op, b: byte, env: Env, m: Machine)
    requires Valid(m, env.limit)
    ensures PlainHalt(LocalOp(op, b, env, m), b)
  {
    if UsesMemory(op) {
      MemoryHalts(op, b, env, m);
    } else {
      StackLocal(op, b, env, m);
      StackHalts(op, b, env, m);
    }
  }

  lemma LocalSimulates(h: WorldState, w: WorldState, env: Env, a: Body, op: Op, b: byte, m: Machine)
    requires Agree(h, w, a) && Valid(m, env.limit) && !TouchesWorld(op) && b != SELFDESTRUCT
    ensures SameStep(Step(h, env, op, b, m), Step(w, env.(address := a), op, b, m), a)
  {
    LocalOpIgnoresAddress(op, b, env, a, m);
    LocalHalts(op, b, env, m);
    LocalStep(h, env, op, b, m);
    LocalStep(w, env.(address := a), op, b, m);
  }

  lemma StorageSimulates(h: WorldState, w: WorldState, env: Env, a: Body, op: Op, b: byte, m: Machine)
    requires Agree(h, w, a) && Valid(m, env.limit)
    requires op == LoadSlot || op == StoreSlot
    ensures SameStep(Step(h, env, op, b, m), Step(w, env.(address := a), op, b, m), a)
  {
    if |m.stack| >= 1 {
      assert Sload(h, env.address, Peek(m.stack, 0)) == Sload(w, a, Peek(m.stack, 0));
    }
    if op == StoreSlot && |m.stack| >= 2 {
      WritesAgree(h, w, a, env.address, Peek(m.stack, 0), Peek(m.stack, 1));
    }
  }

  lemma SelfDestructDiffers(h: WorldState, w: WorldState, env: Env, a: Body, m: Machine)
    requires Agree(h, w, a) && Valid(m, env.limit) && |a| == 20
    ensures SameStep(SelfDestructOp(h, env, SELFDESTRUCT, m),
                     SelfDestructOp(w, env.(address := a), SELFDESTRUCT, m), a)
  {
  }

  lemma OpSimulates(h: WorldState, w: WorldState, env: Env, a: Body, op: Op, b: byte, m: Machine)
    requires Agree(h, w, a) && Valid(m, env.limit) && |a| == 20
    requires op == SelfDestruct <==> b == SELFDESTRUCT
    ensures SameStep(Step(h, env, op, b, m), Step(w, env.(address := a), op, b, m), a)
  {
    if !TouchesWorld(op) {
      LocalSimulates(h, w, env, a, op, b, m);
    } else if op == Call {
      CallStep(h, env, b, m);
      CallStep(w, env.(address := a), b, m);
      CallSimulates(h, w, env, a, m);
    } else if op == SelfDestruct {
      SelfDestructStep(h, env, b, m);
      SelfDestructStep(w, env.(address := a), b, m);
      SelfDestructDiffers(h, w, env, a, m);
    } else {
      StorageSimulates(h, w, env, a, op, b, m);
    }
  }

  lemma StepSimulates(h: WorldState, w: WorldState, env: Env, a: Body, m: Machine)
    requires Agree(h, w, a) && Valid(m, env.limit) && m.pc < |env.code| && |a| == 20
    ensures SameStep(StepAt(h, env, m), StepAt(w, env.(address := a), m), a)
  {
    var env' := env.(address := a);
    var f := Fetch(env, m);
    assert Fetch(env', m) == f;
    match f
    case Fault(_) =>
    case Ready(op, b, m1) => OpSimulates(h, w, env, a, op, b, m1);
  }

  /**
   * Unless the multi-account run enters a contract, both paths give the same halt, energy,
   * stack top, return data and slot values, and execute as many instructions - exactly when
   * the host run does not end at a SELFDESTRUCT.
   */
  ghost predicate Simulates(rh: RunResult, rw: RunResult, a: Body) {
    rw.entered == 0 ==>
      && (rh.exec.halt != BadOpcode(SELFDESTRUCT) ==>
            rh.exec == rw.exec && rh.steps == rw.steps && Agree(rh.world, rw.world, a))
      && (rh.exec.halt == BadOpcode(SELFDESTRUCT) ==> rw.exec.halt != rh.exec.halt)
  }

  lemma {:induction false} RunSimulates(h: WorldState, w: WorldState, env: Env, a: Body, m: Machine)
    requires Agree(h, w, a) && Valid(m, env.limit) && |a| == 20
    ensures Simulates(Run(h, env, m), Run(w, env.(address := a), m), a)
    decreases env.limit - m.used, 1
  {
    if m.pc < |env.code| {
      StepSimulates(h, w, env, a, m);
      ContinueSimulates(h, w, env, a, m.used, StepAt(h, env, m), StepAt(w, env.(address := a), m));
    }
  }

  lemma {:induction false} ContinueSimulates(h: WorldState, w: WorldState, env: Env, a: Body, floor: nat,
                                             sh: StepResult, sw: StepResult)
    requires floor <= env.limit <= U64_MAX && |a| == 20
    requires Progress(sh, floor, env.limit) && Progress(sw, floor, env.limit)
    requires SameStep(sh, sw, a)
    ensures Simulates(Continue(h, env, floor, sh), Continue(w, env.(address := a), floor, sw), a)
    decreases env.limit - floor, 0
  {
    if sw.Went? && sh.o.Next? {
      RunSimulates(sh.w, sw.w, env, a, sh.o.m);
    }
  }

  /**
   * The whole-frame statement: a host run against a run of the same code at address `a`, whose
   * stored code (this or other) and whose neighbours' code do not matter. As long as no contract
   * is entered, the results are the same exactly when the host run does not stop at SELFDESTRUCT.
   */
  lemma HostRunSimulatesWorldRun(slots: map<Word, Word>, w: WorldState, env: Env, a: Body)
    requires env.limit <= U64_MAX && env.depth == 0 && |a| == 20
    requires !w.backend.HostBacked?
    requires forall slot: Word :: HostSload(slots, slot) == Sload(w, a, slot)
    ensures var rh := RunFrame(HostWorld(slots), env);
            var rw := RunFrame(w, env.(address := a));
            && Simulates(rh, rw, a)
            && (rw.entered == 0 ==> (rh.exec == rw.exec <==> rh.exec.halt != BadOpcode(SELFDESTRUCT)))
  {
    RunSimulates(HostWorld(slots), w, env, a, Fresh);
  }

  // -- what can be checked beforehand ---------------------------------------

  /** A host step stops at a bad opcode only if that opcode is the byte it executes. */
  predicate NamesByte(s: StepResult, b: byte) {
    s.Went? && (s.o.Halted? && s.o.e.halt.BadOpcode? ==> s.o.e.halt.b == b)
  }

  lemma HostOpNamesByte(h: WorldState, env: Env, op: Op, b: byte, m: Machine)
    requires h.backend.HostBacked? && h.code == map[] && Valid(m, env.limit)
    ensures NamesByte(Step(h, env, op, b, m), b)
  {
    if !TouchesWorld(op) {
      LocalStep(h, env, op, b, m);
      LocalHalts(op, b, env, m);
    } else if op == Call {
      CallStep(h, env, b, m);
      HostCallNamesByte(h, env, b, m);
    } else {
      HostWorldNamesByte(h, env, op, b, m);
    }
  }

  lemma HostWorldNamesByte(h: WorldState, env: Env, op: Op, b: byte, m: Machine)
    requires h.backend.HostBacked? && Valid(m, env.limit)
    requires op == LoadSlot || op == StoreSlot || op == SelfDestruct
    ensures NamesByte(Step(h, env, op, b, m), b)
  {
  }

  lemma HostCallNamesByte(h: WorldState, env: Env, b: byte, m: Machine)
    requires h.backend.HostBacked? && h.code == map[] && Valid(m, env.limit)
    ensures NamesByte(CallOp(h, env, m), b)
  {
    PlanHalts(env, m);
    match PlanCall(env, m)
    case CallFault(_) =>
    case Precompiled(g, output, retOff, retLen) => FinishHalts(env, env.address, g, true, output, retOff, retLen);
    case ToContract(g, _, _, _, retOff, retLen) => FinishHalts(env, env.address, g, false, [], retOff, retLen);
  }

  lemma {:induction false} HostRunNamesByte(h: WorldState, env: Env, m: Machine)
    requires h.backend.HostBacked? && h.code == map[] && Valid(m, env.limit)
    ensures var r := Run(h, env, m); r.exec.halt.BadOpcode? ==> r.exec.halt.b in env.code
    decreases env.limit - m.used
  {
    if m.pc < |env.code| {
      var s := StepAt(h, env, m);
      HostStepHalts(h, env, m);
      match Fetch(env, m) {
        case Fault(_) =>
        case Ready(op, b, m1) => HostOpNamesByte(h, env, op, b, m1);
      }
      if s.o.Next? {
        HostRunNamesByte(s.w, env, s.o.m);
      }
    }
  }

  /** Code that contains neither the CALL nor the SELFDESTRUCT byte runs alike on both paths. */
  lemma PlainCodeRunsAlike(slots: map<Word, Word>, w: WorldState, env: Env, a: Body)
    requires env.limit <= U64_MAX && env.depth == 0 && |a| == 20
    requires !w.backend.HostBacked?
    requires forall slot: Word :: HostSload(slots, slot) == Sload(w, a, slot)
    requires CALL !in env.code && SELFDESTRUCT !in env.code
    ensures var rh := RunFrame(HostWorld(slots), env);
            var rw := RunFrame(w, env.(address := a));
            rh.exec == rw.exec && rh.steps == rw.steps && Agree(rh.world, rw.world, a)
  {
    HostRunSimulatesWorldRun(slots, w, env, a);
    CallFreeCodeEntersNothing(w, env.(address := a), Fresh);
    HostRunNamesByte(HostWorld(slots), env, Fresh);
    SimulatedAlike(RunFrame(HostWorld(slots), env), RunFrame(w, env.(address := a)), a);
  }

  lemma SimulatedAlike(rh: RunResult, rw: RunResult, a: Body)
    requires Simulates(rh, rw, a) && rw.entered == 0 && rh.exec.halt != BadOpcode(SELFDESTRUCT)
    ensures rh.exec == rw.exec && rh.steps == rw.steps && Agree(rh.world, rw.world, a)
  {
  }

  // -- what the narrower halt reasons lose --------------------------------

  lemma {:induction false} HostRunHalts(h: WorldState, env: Env, m: Machine)
    requires h.backend.HostBacked? && h.code == map[] && Valid(m, env.limit)
    ensures var r := Run(h, env, m);
            && r.exec.halt != SelfDestructed && r.exec.halt != DepthLimit
            && r.world.backend.HostBacked?
    decreases env.limit - m.used
  {
    if m.pc < |env.code| {
      var s := StepAt(h, env, m);
      HostStepHalts(h, env, m);
      if s.o.Next? {
        HostRunHalts(s.w, env, s.o.m);
      }
    }
  }

  lemma HostStepHalts(h: WorldState, env: Env, m: Machine)
    requires h.backend.HostBacked? && h.code == map[] && Valid(m, env.limit) && m.pc < |env.code|
    ensures HostStays(StepAt(h, env, m))
  {
    match Fetch(env, m)
    case Fault(_) =>
    case Ready(op, b, m1) => HostOpHalts(h, env, op, b, m1);
  }

  /** A host step stays on the host and stops for no reason a host run cannot report. */
  predicate HostStays(s: StepResult) {
    && s.Went? && s.w.backend.HostBacked? && s.w.code == map[]
    && (s.o.Halted? ==> s.o.e.halt != SelfDestructed && s.o.e.halt != DepthLimit)
  }

  lemma HostLocalHalts(h: WorldState, env: Env, op: Op, b: byte, m: Machine)
    requires h.backend.HostBacked? && h.code == map[] && Valid(m, env.limit) && !TouchesWorld(op)
    ensures HostStays(Step(h, env, op, b, m))
  {
    LocalHalts(op, b, env, m);
    LocalStep(h, env, op, b, m);
  }

  lemma HostCallHalts(h: WorldState, env: Env, m: Machine)
    requires h.backend.HostBacked? && h.code == map[] && Valid(m, env.limit)
    ensures HostStays(CallOp(h, env, m))
  {
  }

  lemma HostStorageHalts(h: WorldState, env: Env, op: Op, b: byte, m: Machine)
    requires h.backend.HostBacked? && h.code == map[] && Valid(m, env.limit)
    requires op == LoadSlot || op == StoreSlot
    ensures HostStays(Step(h, env, op, b, m))
  {
  }

  lemma HostSelfDestructHalts(h: WorldState, env: Env, b: byte, m: Machine)
    requires h.backend.HostBacked? && h.code == map[] && Valid(m, env.limit)
    ensures HostStays(SelfDestructOp(h, env, b, m))
  {
  }

  lemma HostOpHalts(h: WorldState, env: Env, op: Op, b: byte, m: Machine)
    requires h.backend.HostBacked? && h.code == map[] && Valid(m, env.limit)
    ensures HostStays(Step(h, env, op, b, m))
  {
    if !TouchesWorld(op) {
      HostLocalHalts(h, env, op, b, m);
    } else if op == Call {
      CallStep(h, env, b, m);
      HostCallHalts(h, env, m);
    } else if op == SelfDestruct {
      SelfDestructStep(h, env, b, m);
      HostSelfDestructHalts(h, env, b, m);
    } else {
      HostStorageHalts(h, env, op, b, m);
    }
  }

  /** On host runs `map_halt` confuses no two halt reasons that can occur. */
  lemma MapHaltIsFaithful(slots: map<Word, Word>, env: Env, slots': map<Word, Word>, env': Env)
    requires env.limit <= U64_MAX && env.depth == 0 && env'.limit <= U64_MAX && env'.depth == 0
    ensures var h := RunFrame(HostWorld(slots), env).exec.halt;
            var h' := RunFrame(HostWorld(slots'), env').exec.halt;
            MapHalt(h) == MapHalt(h') <==> h == h'
  {
    HostRunHalts(HostWorld(slots), env, Fresh);
    HostRunHalts(HostWorld(slots'), env', Fresh);
    MapHaltSeparates(RunFrame(HostWorld(slots), env).exec.halt, RunFrame(HostWorld(slots'), env').exec.halt);
  }

  lemma MapHaltSeparates(h: Halt, h': Halt)
    requires h != SelfDestructed && h != DepthLimit && h' != SelfDestructed && h' != DepthLimit
    ensures MapHalt(h) == MapHalt(h') <==> h == h'
  {
  }

  /** `run_with_input`: bind the host, run the engine at a sentinel address, map the halt. */
  method RunWithInput(code: seq<byte>, calldata: seq<byte>, limit: nat, slots: map<Word, Word>,
                      precompile: (nat, seq<byte>) -> seq<byte>)
    returns (out: HostOutcome, slots': map<Word, Word>)
    requires limit <= U64_MAX
    ensures var r := RunFrame(HostWorld(slots), Env(ToBigEndian(0, 20), code, calldata, limit, 0, precompile));
            && out == HostOutcome(MapHalt(r.exec.halt), r.exec.stackTop, r.exec.energyUsed, r.exec.returnData)
            && r.world.backend == HostBacked(slots')
  {
    var world := new World(HostBacked(slots));
    var env := Env(ToBigEndian(0, 20), code, calldata, limit, 0, precompile);
    HostRunHalts(HostWorld(slots), env, Fresh);
    var e := EngineLoop.ExecuteFrame(world, env);
    out := HostOutcome(MapHalt(e.halt), e.stackTop, e.energyUsed, e.returnData);
    slots' := world.backend.slots;
  }
}
