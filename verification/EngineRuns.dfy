/** Two programs, run instruction by instruction, on which tempting laws fail. */
module EngineRuns {
  import opened Words
  import opened Energy
  import opened WorldModel
  import opened Engine
  import opened EngineLoop
  import opened HostPath

  // -- single instructions on a machine with room and energy ----------------

  lemma StepPush1(w: WorldState, env: Env, m: Machine, n: Machine)
    requires Valid(m, env.limit) && m.pc + 1 < |env.code| && env.code[m.pc] == 0x60
    requires |m.stack| < STACK_LIMIT && m.used + 3 <= env.limit
    requires n == m.(pc := m.pc + 2, used := m.used + 3, stack := m.stack + [env.code[m.pc + 1]])
    ensures Valid(n, env.limit)
    ensures Run(w, env, m).exec == Run(w, env, n).exec && Run(w, env, m).world == Run(w, env, n).world
  {
    assert Effect(w, env, m) == (Next(n), w);
    RunUnfolds(w, env, m);
  }

  lemma StepPush2(w: WorldState, env: Env, m: Machine, n: Machine)
    requires Valid(m, env.limit) && m.pc + 2 < |env.code| && env.code[m.pc] == 0x61
    requires |m.stack| < STACK_LIMIT && m.used + 3 <= env.limit
    requires n == m.(pc := m.pc + 3, used := m.used + 3, stack := n.stack)
    requires |n.stack| == |m.stack| + 1 && n.stack[..|m.stack|] == m.stack
    requires n.stack[|m.stack|] as int == env.code[m.pc + 1] as int * 0x100 + env.code[m.pc + 2] as int
    ensures Valid(n, env.limit)
    ensures Run(w, env, m).exec == Run(w, env, n).exec && Run(w, env, m).world == Run(w, env, n).world
  {
    assert n.stack == m.stack + [n.stack[|m.stack|]];
    assert Effect(w, env, m) == (Next(n), w);
    RunUnfolds(w, env, m);
  }

  lemma StepStop(w: WorldState, env: Env, m: Machine)
    requires Valid(m, env.limit) && m.pc < |env.code| && env.code[m.pc] == 0x00
    ensures Run(w, env, m).exec == Exec(Stopped, m.used, [], Top(m.stack)) && Run(w, env, m).world == w
  {
    RunUnfolds(w, env, m);
  }

  /** REVERT of the empty area at 0. */
  lemma ReturnEmpty(env: Env, m: Machine, d: Machine)
    requires Valid(m, env.limit) && |m.stack| >= 2 && Peek(m.stack, 0) == 0 && Peek(m.stack, 1) == 0 && d == Drop(m, 2)
    ensures ReturnOp(Revert, env, m) == Halted(Exec(Reverted, m.used, [], Top(d.stack)))
  {
    assert GrowFor(d, env.limit, 0, 0) == Some(d);
    assert d.mem[0..0] == [];
  }

  lemma RevertEmpty(w: WorldState, env: Env, m: Machine, rest: seq<Word>)
    requires Valid(m, env.limit) && m.stack == rest + [0, 0]
    ensures Step(w, env, Revert, 0xfd, m) == Went(Halted(Exec(Reverted, m.used, [], Top(rest))), w, true)
  {
    assert Drop(m, 2).stack == rest;
    ReturnEmpty(env, m, Drop(m, 2));
    LocalStep(w, env, Revert, 0xfd, m);
  }

  lemma StepRevert(w: WorldState, env: Env, m: Machine, rest: seq<Word>)
    requires Valid(m, env.limit) && m.pc < |env.code| && env.code[m.pc] == 0xfd
    requires m.stack == rest + [0, 0]
    ensures Run(w, env, m).exec == Exec(Reverted, m.used, [], Top(rest)) && Run(w, env, m).world == w
  {
    RevertEmpty(w, env, m, rest);
    FetchFree(env, m);
    HaltEnds(w, env, m, Exec(Reverted, m.used, [], Top(rest)));
  }

  lemma FetchFree(env: Env, m: Machine)
    requires Valid(m, env.limit) && m.pc < |env.code| && env.code[m.pc] == 0xfd
    ensures Fetch(env, m) == Ready(Revert, 0xfd, m)
  {
  }

  lemma HaltEnds(w: WorldState, env: Env, m: Machine, e: Exec)
    requires Valid(m, env.limit) && m.pc < |env.code| && StepAt(w, env, m) == Went(Halted(e), w, true)
    ensures Run(w, env, m).exec == e && Run(w, env, m).world == w
  {
  }

  /** SSTORE of a non-zero value to a zero slot. */
  lemma StoreFresh(w: WorldState, env: Env, m: Machine, n: Machine, key: Word, v: Word)
    requires Valid(m, env.limit) && m.stack == n.stack + [v, key] && m.used + SET_SSTORE <= env.limit
    requires n == m.(pc := m.pc + 1, used := m.used + SET_SSTORE, stack := n.stack)
    requires Sload(w, env.address, key) == 0 && v != 0
    ensures Step(w, env, StoreSlot, 0x55, m) == Went(Next(n), Sstore(w, env.address, key, v), true)
  {
    assert Drop(m, 2).stack == n.stack;
  }

  lemma StepStore(w: WorldState, env: Env, m: Machine, n: Machine, key: Word, v: Word)
    requires Valid(m, env.limit) && m.pc < |env.code| && env.code[m.pc] == 0x55
    requires m.stack == n.stack + [v, key] && m.used + SET_SSTORE <= env.limit
    requires n == m.(pc := m.pc + 1, used := m.used + SET_SSTORE, stack := n.stack)
    requires Sload(w, env.address, key) == 0 && v != 0
    ensures Valid(n, env.limit)
    ensures var w' := Sstore(w, env.address, key, v);
            Run(w, env, m).exec == Run(w', env, n).exec && Run(w, env, m).world == Run(w', env, n).world
  {
    StoreFresh(w, env, m, n, key, v);
    assert Fetch(env, m) == Ready(StoreSlot, 0x55, m);
    RunUnfolds(w, env, m);
  }

  // -- the programs ---------------------------------------------------------

  /** Set slot 0 to 1 and succeed: PUSH1 1, PUSH1 0, SSTORE, STOP. */
  const INNER: seq<byte> := [0x60, 0x01, 0x60, 0x00, 0x55, 0x00]

  /** CALL the contract at 0x20 with 65535 energy and no data, then REVERT without data. */
  const OUTER: seq<byte> :=
    [0x60, 0x00, 0x60, 0x00, 0x60, 0x00, 0x60, 0x00, 0x60, 0x00, 0x60, 0x20, 0x61, 0xff, 0xff, 0xf1,
     0x60, 0x00, 0x60, 0x00, 0xfd]

  const LIMIT: nat := 100_000

  /** The account that the word 0x20 names. */
  function Callee(): Body {
    ToBigEndian(0x20, 32)[12..]
  }

  predicate PushesAt(code: seq<byte>, pc: nat, v: byte) {
    pc + 1 < |code| && code[pc] == 0x60 && code[pc + 1] == v
  }

  predicate CallsCallee(code: seq<byte>) {
    && PushesAt(code, 0, 0) && PushesAt(code, 2, 0) && PushesAt(code, 4, 0) && PushesAt(code, 6, 0)
    && PushesAt(code, 8, 0) && PushesAt(code, 10, 0x20)
    && 15 < |code| && code[12] == 0x61 && code[13] == 0xff && code[14] == 0xff && code[15] == CALL
  }

  predicate ThenReverts(code: seq<byte>) {
    PushesAt(code, 16, 0) && PushesAt(code, 18, 0) && 20 < |code| && code[20] == 0xfd
  }

  lemma OuterIs()
    ensures CallsCallee(OUTER) && ThenReverts(OUTER)
  {
  }

  /** The machine just before the CALL. */
  function AtCall(): Machine {
    Machine(15, [0, 0, 0, 0, 0, 0x20, 0xffff], [], 21, [])
  }

  lemma InnerRuns(w: WorldState, env: Env)
    requires env.code == INNER && 20_006 <= env.limit <= U64_MAX && env.depth <= MAX_CALL_DEPTH
    requires !w.backend.HostBacked? && Sload(w, env.address, 0) == 0
    ensures RunFrame(w, env).exec == Exec(Stopped, 20_006, [], None)
    ensures RunFrame(w, env).world == Sstore(w, env.address, 0, 1)
  {
    var m1 := Machine(2, [1], [], 3, []);
    var m2 := Machine(4, [1, 0], [], 6, []);
    var m3 := Machine(5, [], [], 20_006, []);
    StepPush1(w, env, Fresh, m1);
    StepPush1(w, env, m1, m2);
    StepStore(w, env, m2, m3, 0, 1);
    StepStop(Sstore(w, env.address, 0, 1), env, m3);
  }

  lemma PushTwo(w: WorldState, env: Env, m: Machine, n: Machine, x: byte, y: byte)
    requires Valid(m, env.limit) && |m.stack| < 16 && m.used + 6 <= env.limit
    requires PushesAt(env.code, m.pc, x) && PushesAt(env.code, m.pc + 2, y)
    requires n == m.(pc := m.pc + 4, used := m.used + 6, stack := m.stack + [x] + [y])
    ensures Valid(n, env.limit)
    ensures Run(w, env, m).exec == Run(w, env, n).exec && Run(w, env, m).world == Run(w, env, n).world
  {
    var k := m.(pc := m.pc + 2, used := m.used + 3, stack := m.stack + [x]);
    StepPush1(w, env, m, k);
    StepPush1(w, env, k, n);
  }

  lemma OuterFirstFour(w: WorldState, env: Env, m: Machine)
    requires CallsCallee(env.code) && env.limit == LIMIT && m == Machine(8, [0, 0, 0, 0], [], 12, [])
    ensures Valid(m, LIMIT)
    ensures Run(w, env, Fresh).exec == Run(w, env, m).exec && Run(w, env, Fresh).world == Run(w, env, m).world
  {
    var k := Machine(4, [0, 0], [], 6, []);
    assert k.stack == Fresh.stack + [0] + [0];
    PushTwo(w, env, Fresh, k, 0, 0);
    assert m.stack == k.stack + [0] + [0];
    PushTwo(w, env, k, m, 0, 0);
  }

  lemma OuterLastThree(w: WorldState, env: Env, m: Machine)
    requires CallsCallee(env.code) && env.limit == LIMIT && m == Machine(8, [0, 0, 0, 0], [], 12, [])
    ensures Valid(m, LIMIT) && Valid(AtCall(), LIMIT)
    ensures Run(w, env, m).exec == Run(w, env, AtCall()).exec && Run(w, env, m).world == Run(w, env, AtCall()).world
  {
    var k := Machine(12, [0, 0, 0, 0, 0, 0x20], [], 18, []);
    assert k.stack == m.stack + [0] + [0x20];
    PushTwo(w, env, m, k, 0, 0x20);
    StepPush2(w, env, k, AtCall());
  }

  lemma OuterCalls(w: WorldState, env: Env)
    requires CallsCallee(env.code) && env.limit == LIMIT
    ensures Valid(AtCall(), LIMIT)
    ensures Run(w, env, Fresh).exec == Run(w, env, AtCall()).exec
    ensures Run(w, env, Fresh).world == Run(w, env, AtCall()).world
  {
    var m := Machine(8, [0, 0, 0, 0], [], 12, []);
    OuterFirstFour(w, env, m);
    OuterLastThree(w, env, m);
  }

  /** After the CALL, whatever its flag, the program reverts. */
  lemma OuterReverts(w: WorldState, env: Env, flag: Word, used: nat)
    requires ThenReverts(env.code) && env.limit == LIMIT && used + 6 <= LIMIT
    ensures var m := Machine(16, [flag], [], used, []);
            && Valid(m, LIMIT)
            && Run(w, env, m).exec == Exec(Reverted, used + 6, [], Some(flag)) && Run(w, env, m).world == w
  {
    var m0, m1 := Machine(16, [flag], [], used, []), Machine(18, [flag, 0], [], used + 3, []);
    var m2 := Machine(20, [flag, 0, 0], [], used + 6, []);
    StepPush1(w, env, m0, m1);
    StepPush1(w, env, m1, m2);
    StepRevert(w, env, m2, [flag]);
  }

  /** A CALL without data to an address below 0x100 that is no precompile. */
  lemma PlanWithoutData(env: Env, m: Machine, d: Machine, target: Word, gas: Word)
    requires Valid(m, env.limit) && |m.stack| >= 7 && d == Drop(m, 7)
    requires Peek(m.stack, 0) == gas && Peek(m.stack, 1) == target
    requires forall i | 2 <= i < 7 :: Peek(m.stack, i) == 0
    requires 5 <= target < 0x100
    ensures PlanCall(env, m) == ToContract(d, ToBigEndian(target, 32)[12..], [], Low64(gas), 0, 0)
  {
    assert Peek(m.stack, 3) == 0 && Peek(m.stack, 4) == 0 && Peek(m.stack, 5) == 0 && Peek(m.stack, 6) == 0;
    assert GrowFor(d, env.limit, 0, 0) == Some(d);
    assert d.mem[0..0] == [];
  }

  lemma OuterFetches(env: Env)
    requires CallsCallee(env.code) && env.limit == LIMIT
    ensures Valid(AtCall(), LIMIT) && Valid(AtCall().(used := 61), LIMIT)
    ensures Fetch(env, AtCall()) == Ready(Call, CALL, AtCall().(used := 61))
  {
  }

  lemma OuterPlan(env: Env)
    requires CallsCallee(env.code) && env.limit == LIMIT
    ensures Valid(AtCall().(used := 61), LIMIT)
    ensures PlanCall(env, AtCall().(used := 61)) ==
            ToContract(Machine(15, [], [], 61, []), Callee(), [], 0xffff, 0, 0)
  {
    var m := AtCall().(used := 61);
    var d := Machine(15, [], [], 61, []);
    assert Drop(m, 7) == d;
    PlanWithoutData(env, m, d, 0x20, 0xffff);
  }

  /** With code at the callee, the CALL enters it with all the energy asked for. */
  lemma OuterEnters(w: WorldState, env: Env)
    requires CallsCallee(env.code) && env.limit == LIMIT && GetCode(w, Callee()) == INNER
    ensures Valid(AtCall(), LIMIT)
    ensures StepAt(w, env, AtCall()) ==
            Entering(Machine(15, [], [], 61, []), Callee(), INNER, [], 0xffff, 0, 0)
  {
    OuterFetches(env);
    OuterPlan(env);
    CallStep(w, env, CALL, AtCall().(used := 61));
    assert INNER != [];
  }

  /** Without, it pushes 0. */
  lemma OuterSkips(w: WorldState, env: Env)
    requires CallsCallee(env.code) && env.limit == LIMIT && GetCode(w, Callee()) == []
    ensures Valid(AtCall(), LIMIT)
    ensures StepAt(w, env, AtCall()) == Went(Next(Machine(16, [0], [], 61, [])), w, true)
  {
    OuterFetches(env);
    OuterPlan(env);
    CallStep(w, env, CALL, AtCall().(used := 61));
  }

  lemma OuterReturns(w: WorldState, env: Env, s: StepResult)
    requires s == Entering(Machine(15, [], [], 61, []), Callee(), INNER, [], 0xffff, 0, 0) && env.limit == LIMIT
    ensures Valid(s.m, LIMIT)
    ensures ReturnFrom(env, s, Exec(Stopped, 20_006, [], None)) == Next(Machine(16, [1], [], 20_067, []))
  {
  }

  // -- what they show -------------------------------------------------------

  /** A world in which the callee has its code and an empty slot 0. */
  ghost predicate Deployed(w: WorldState) {
    !w.backend.HostBacked? && GetCode(w, Callee()) == INNER && Sload(w, Callee(), 0) == 0
  }

  function OuterEnv(a: Body, depth: nat, precompile: (nat, seq<byte>) -> seq<byte>): Env {
    Env(a, OUTER, [], LIMIT, depth, precompile)
  }

  lemma OuterResult(w: WorldState, env: Env)
    requires CallsCallee(env.code) && ThenReverts(env.code) && env.limit == LIMIT && env.depth < MAX_CALL_DEPTH
    requires Deployed(w)
    ensures RunFrame(w, env).exec == Exec(Reverted, 20_073, [], Some(1))
    ensures RunFrame(w, env).world == Commit(Sstore(w, Callee(), 0, 1), |w.journal|)
  {
    var s := Entering(Machine(15, [], [], 61, []), Callee(), INNER, [], 0xffff, 0, 0);
    var w' := Commit(Sstore(w, Callee(), 0, 1), |w.journal|);
    OuterCalls(w, env);
    OuterEnters(w, env);
    InnerRuns(w, CalleeEnv(env, s));
    OuterReturns(w, env, s);
    RunUnfolds(w, env, AtCall());
    OuterReverts(w', env, 1, 20_067);
  }

  /**
   * A frame that fails need not leave the world as it found it: this one fails, and the slot its
   * inner call wrote and committed keeps its new value after the revert.
   */
  lemma FailedFrameKeepsCommittedWrite(w: WorldState, a: Body, depth: nat, precompile: (nat, seq<byte>) -> seq<byte>)
    requires Deployed(w) && depth < MAX_CALL_DEPTH
    ensures var r := RunFrame(w, OuterEnv(a, depth, precompile));
            && r.exec.halt == Reverted
            && Sload(w, Callee(), 0) == 0 && Sload(Settle(r, |w.journal|), Callee(), 0) == 1
  {
    OuterIs();
    OuterResult(w, OuterEnv(a, depth, precompile));
  }

  lemma OuterHostResult(slots: map<Word, Word>, env: Env)
    requires CallsCallee(env.code) && ThenReverts(env.code) && env.limit == LIMIT && env.depth == 0
    ensures RunFrame(HostWorld(slots), env).exec == Exec(Reverted, 67, [], Some(0))
  {
    var h := HostWorld(slots);
    OuterCalls(h, env);
    OuterSkips(h, env);
    RunUnfolds(h, env, AtCall());
    OuterReverts(h, env, 0, 61);
  }

  /**
   * The two paths do part where a contract is entered: on the host path the same program finds
   * nothing at the callee, and the results differ though neither run meets a SELFDESTRUCT.
   */
  lemma EnteringSeparatesPaths(slots: map<Word, Word>, w: WorldState, a: Body,
                               precompile: (nat, seq<byte>) -> seq<byte>)
    requires Deployed(w) && |a| == 20
    requires forall slot: Word :: HostSload(slots, slot) == Sload(w, a, slot)
    ensures var rh := RunFrame(HostWorld(slots), OuterEnv([], 0, precompile));
            var rw := RunFrame(w, OuterEnv(a, 0, precompile));
            rh.exec != rw.exec && rh.exec.halt == rw.exec.halt == Reverted && rw.entered > 0
  {
    var env := OuterEnv([], 0, precompile);
    OuterIs();
    OuterHostResult(slots, env);
    OuterResult(w, env.(address := a));
    HostRunSimulatesWorldRun(slots, w, env, a);
  }

  /** Such worlds exist. */
  lemma DeployedWorldExists()
    ensures Deployed(WorldState(map[], map[Callee() := INNER], map[], {}, [], 0, [], InWorld))
  {
  }
}
