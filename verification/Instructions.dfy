/** What every instruction does to the stack, the program counter and, for CALL, the caller. */
module Instructions {
  import opened Words
  import opened Energy
  import opened WorldModel
  import opened Engine
  import opened EngineLoop

  /** Operands taken. DUP1 and SWAP1 take the words they look at. */
  function Pops(op: Op): nat {
    match op
    case Stop | Push1 | Push2 | CallDataSize | ReturnDataSize | Jumpdest | Unsupported => 0
    case IsZero | Pop | Dup1 | CallDataLoad | Mload | LoadSlot | Jump | SelfDestruct => 1
    case Arith(_) | Swap1 | Mstore | Mstore8 | StoreSlot | Jumpi | Return | Revert => 2
    case CallDataCopy | ReturnDataCopy => 3
    case VoteWitness => 4
    case Call => 7
  }

  /** Results left. */
  function Pushes(op: Op): nat {
    match op
    case Dup1 | Swap1 => 2
    case Arith(_) | IsZero | Push1 | Push2 | CallDataLoad | CallDataSize | ReturnDataSize => 1
    case Mload | LoadSlot | Call | VoteWitness => 1
    case _ => 0
  }

  /** Bytes an instruction occupies in the code. */
  function Size(op: Op): nat {
    match op
    case Push1 => 2
    case Push2 => 3
    case _ => 1
  }

  predicate IsJump(op: Op) {
    op == Jump || op == Jumpi
  }

  /**
   * The outcome `o` of `op` on machine `m`: it underflows exactly when operands are missing,
   * overflows exactly when it would grow a full stack, and otherwise leaves every word below its
   * operands alone, changes the height by its table entry and moves to the next instruction.
   */
  predicate Disciplined(op: Op, m: Machine, o: Outcome) {
    var s := m.stack;
    match o
    case Next(n) =>
      && Pops(op) <= |s|
      && |n.stack| == |s| - Pops(op) + Pushes(op)
      && (forall i | 0 <= i < |s| - Pops(op) :: n.stack[i] == s[i])
      && (!IsJump(op) ==> n.pc == m.pc + Size(op))
    case Halted(e) =>
      && (e.halt == StackUnderflow <==> |s| < Pops(op))
      && (e.halt == StackOverflow <==> |s| == STACK_LIMIT && Pushes(op) > Pops(op))
  }

  lemma StackOpDisciplined(op: Op, b: byte, env: Env, m: Machine)
    requires Valid(m, env.limit) && !TouchesMore(op)
    ensures Disciplined(op, m, StackOp(op, b, env, m))
  {
  }

  /** Instructions that use memory or the world. */
  predicate TouchesMore(op: Op) {
    op in {CallDataCopy, ReturnDataCopy, Mload, Mstore, Mstore8, LoadSlot, StoreSlot, Call, Return, Revert,
           VoteWitness, SelfDestruct}
  }

  lemma CopyDisciplined(op: Op, source: seq<byte>, env: Env, m: Machine)
    requires Valid(m, env.limit) && (op == CallDataCopy || op == ReturnDataCopy)
    ensures Disciplined(op, m, CopyOp(source, env, m))
  {
  }

  lemma WordMemoryDisciplined(op: Op, env: Env, m: Machine)
    requires Valid(m, env.limit) && (op == Mload || op == Mstore || op == Mstore8)
    ensures Disciplined(op, m, WordMemoryOp(op, env, m))
  {
  }

  lemma VoteDisciplined(env: Env, m: Machine)
    requires Valid(m, env.limit)
    ensures Disciplined(VoteWitness, m, VoteOp(env, m))
  {
  }

  lemma ReturnOpDisciplined(op: Op, env: Env, m: Machine)
    requires Valid(m, env.limit) && (op == Return || op == Revert)
    ensures Disciplined(op, m, ReturnOp(op, env, m))
  {
  }

  lemma MemoryDisciplined(op: Op, b: byte, env: Env, m: Machine)
    requires Valid(m, env.limit) && TouchesMore(op) && !TouchesWorld(op)
    ensures Disciplined(op, m, LocalOp(op, b, env, m))
  {
    match op
    case CallDataCopy => CopyDisciplined(op, env.calldata, env, m);
    case ReturnDataCopy => CopyDisciplined(op, m.ret, env, m);
    case Mload | Mstore | Mstore8 => WordMemoryDisciplined(op, env, m);
    case Return | Revert => ReturnOpDisciplined(op, env, m);
    case VoteWitness => VoteDisciplined(env, m);
  }

  lemma LocalDisciplined(op: Op, b: byte, env: Env, m: Machine)
    requires Valid(m, env.limit) && !TouchesWorld(op)
    ensures Disciplined(op, m, LocalOp(op, b, env, m))
  {
    if TouchesMore(op) {
      MemoryDisciplined(op, b, env, m);
    } else {
      StackOpDisciplined(op, b, env, m);
      assert LocalOp(op, b, env, m) == StackOp(op, b, env, m);
    }
  }

  // -- CALL -----------------------------------------------------------------

  /** Byte `i` of memory `mem` (zero past its end) after `out` was copied to `off`. */
  function CopiedByte(mem: seq<byte>, off: nat, out: seq<byte>, i: nat): byte {
    if off <= i < off + |out| then out[i - off] else if i < |mem| then mem[i] else 0
  }

  /** What the caller keeps of an output: nothing of a failed call, else at most `retLen` bytes. */
  function Delivered(success: bool, output: seq<byte>, retLen: nat): seq<byte> {
    if !success then [] else if retLen <= |output| then output[..retLen] else output
  }

  /** The caller after a call: flag on the stack, output remembered, its prefix in memory. */
  predicate Reports(m: Machine, o: Outcome, success: bool, output: seq<byte>, retOff: nat, retLen: nat) {
    match o
    case Halted(e) => e.halt == OutOfEnergy && success && retLen > 0
    case Next(n) =>
      && n.stack == m.stack + [if success then 1 else 0]
      && n.pc == m.pc + 1 && n.ret == output && |m.mem| <= |n.mem|
      && forall i | 0 <= i < |n.mem| ::
           n.mem[i] == CopiedByte(m.mem, retOff, Delivered(success, output, retLen), i)
  }

  lemma ExpandedByte(mem: seq<byte>, end: nat, i: nat)
    requires i < |Expanded(mem, end)|
    ensures Expanded(mem, end)[i] == if i < |mem| then mem[i] else 0
  {
  }

  lemma OverwrittenByte(mem: seq<byte>, end: nat, off: nat, out: seq<byte>, i: nat)
    requires off + |out| <= |Expanded(mem, end)| && i < |Expanded(mem, end)|
    ensures Overwrite(Expanded(mem, end), off, out)[i] == CopiedByte(mem, off, out, i)
  {
    ExpandedByte(mem, end, i);
    var g := Expanded(mem, end);
    assert Overwrite(g, off, out) == g[..off] + out + g[off + |out|..];
  }

  lemma FinishReports(env: Env, m: Machine, success: bool, output: seq<byte>, retOff: nat, retLen: nat)
    requires Valid(m, env.limit) && |m.stack| < STACK_LIMIT
    ensures Reports(m, FinishCall(env, m, success, output, retOff, retLen), success, output, retOff, retLen)
  {
    if success && retLen > 0 {
      var end := SaturatingAdd(retOff, retLen);
      var out := Delivered(success, output, retLen);
      var grown := GrowFor(m.(ret := output), env.limit, retOff, retLen);
      if grown.Some? {
        assert grown.value.mem == Expanded(m.mem, end);
        forall i | 0 <= i < |grown.value.mem|
          ensures Overwrite(grown.value.mem, retOff, out)[i] == CopiedByte(m.mem, retOff, out, i)
        {
          OverwrittenByte(m.mem, end, retOff, out, i);
        }
      }
    }
  }

  /** What a CALL hands over: seven operands gone, the arguments read from memory. */
  predicate Prepared(env: Env, m: Machine, p: CallPlan) {
    var s := m.stack;
    match p
    case CallFault(e) =>
      if |s| < 7 then e.halt == StackUnderflow else e.halt == OutOfEnergy
    case Precompiled(g, output, retOff, retLen) =>
      && |s| >= 7 && g.stack == s[..|s| - 7] && g.pc == m.pc && Peek(s, 1) < 0x100
      && output == env.precompile(Peek(s, 1), ReadPadded(m.mem, Low64(Peek(s, 3)), Low64(Peek(s, 4))))
      && retOff == Low64(Peek(s, 5)) && retLen == Low64(Peek(s, 6))
    case ToContract(g, callee, input, requested, retOff, retLen) =>
      && |s| >= 7 && g.stack == s[..|s| - 7] && g.pc == m.pc
      && callee == ToBigEndian(Peek(s, 1), 32)[12..]
      && input == ReadPadded(m.mem, Low64(Peek(s, 3)), Low64(Peek(s, 4)))
      && requested == Low64(Peek(s, 0)) && retOff == Low64(Peek(s, 5)) && retLen == Low64(Peek(s, 6))
  }

  lemma ReadExpanded(mem: seq<byte>, end: nat, off: nat, len: nat)
    requires off + len <= |Expanded(mem, end)|
    ensures Expanded(mem, end)[off..off + len] == ReadPadded(mem, off, len)
  {
    forall i | 0 <= i < len
      ensures Expanded(mem, end)[off + i] == ReadPadded(mem, off, len)[i]
    {
      ExpandedByte(mem, end, off + i);
    }
  }

  lemma PlanPrepares(env: Env, m: Machine)
    requires Valid(m, env.limit)
    ensures Prepared(env, m, PlanCall(env, m))
  {
    var s := m.stack;
    if |s| >= 7 {
      var off, len := Low64(Peek(s, 3)), Low64(Peek(s, 4));
      var grown := GrowFor(Drop(m, 7), env.limit, off, len);
      if grown.Some? {
        ReadExpanded(m.mem, SaturatingAdd(off, len), off, len);
      }
    }
  }

  lemma CallOpDisciplined(w: WorldState, env: Env, m: Machine)
    requires Valid(m, env.limit)
    ensures CallOp(w, env, m).Went? ==> Disciplined(Call, m, CallOp(w, env, m).o)
    ensures CallOp(w, env, m).Entering? ==> Entered(m, CallOp(w, env, m))
  {
    PlanPrepares(env, m);
    match PlanCall(env, m)
    case CallFault(e) =>
    case Precompiled(g, output, retOff, retLen) => FinishReports(env, g, true, output, retOff, retLen);
    case ToContract(g, callee, input, requested, retOff, retLen) =>
      if GetCode(w, callee) == [] {
        FinishReports(env, g, false, [], retOff, retLen);
      }
  }

  lemma StorageDisciplined(w: WorldState, env: Env, op: Op, b: byte, m: Machine)
    requires Valid(m, env.limit) && (op == LoadSlot || op == StoreSlot)
    ensures Disciplined(op, m, Step(w, env, op, b, m).o)
  {
  }

  lemma SelfDestructDisciplined(w: WorldState, env: Env, b: byte, m: Machine)
    requires Valid(m, env.limit) && !w.backend.HostBacked?
    ensures Disciplined(SelfDestruct, m, SelfDestructOp(w, env, b, m).o)
  {
  }

  /** A call that enters a contract has dropped its operands and not moved on. */
  predicate Entered(m: Machine, s: StepResult) {
    s.Entering? && |m.stack| >= 7 && s.m.stack == m.stack[..|m.stack| - 7] && s.m.pc == m.pc
  }

  /** What SELFDESTRUCT does on the host path, before it looks at the stack. */
  predicate Refused(op: Op, b: byte, m: Machine, o: Outcome) {
    op == SelfDestruct && o == HaltWith(BadOpcode(b), m)
  }

  lemma StepDisciplined(w: WorldState, env: Env, op: Op, b: byte, m: Machine)
    requires Valid(m, env.limit)
    ensures var s := Step(w, env, op, b, m);
            if s.Entering? then op == Call && Entered(m, s)
            else if op == SelfDestruct && w.backend.HostBacked? then Refused(op, b, m, s.o)
            else Disciplined(op, m, s.o)
  {
    if !TouchesWorld(op) {
      LocalStep(w, env, op, b, m);
      LocalDisciplined(op, b, env, m);
    } else if op == Call {
      CallStep(w, env, b, m);
      CallOpDisciplined(w, env, m);
    } else if op == SelfDestruct {
      SelfDestructStep(w, env, b, m);
      if !w.backend.HostBacked? {
        SelfDestructDisciplined(w, env, b, m);
      }
    } else {
      StorageDisciplined(w, env, op, b, m);
    }
  }

  /**
   * Every instruction that can be decoded and paid for, CALL with its whole callee included,
   * keeps the stack discipline; SELFDESTRUCT on the host path is refused as an opcode.
   */
  lemma InstructionsAreDisciplined(w: WorldState, env: Env, m: Machine)
    requires Valid(m, env.limit) && m.pc < |env.code| && Fetch(env, m).Ready?
    ensures var f := Fetch(env, m);
            var o := Effect(w, env, m).0;
            if f.op == SelfDestruct && w.backend.HostBacked? then Refused(f.op, f.b, f.m, o)
            else Disciplined(f.op, m, o)
  {
    var f := Fetch(env, m);
    StepDisciplined(w, env, f.op, f.b, f.m);
    var s := StepAt(w, env, m);
    if s.Entering? {
      ReturnDisciplined(env, m, s, RunFrame(w, CalleeEnv(env, s)).exec);
    }
  }

  lemma ReturnDisciplined(env: Env, m: Machine, s: StepResult, callee: Exec)
    requires Entered(m, s) && Valid(s.m, env.limit) && s.forwarded <= env.limit - s.m.used
    requires callee.energyUsed <= s.forwarded && |m.stack| <= STACK_LIMIT
    ensures Disciplined(Call, m, ReturnFrom(env, s, callee))
  {
    ReturnReports(env, s, callee);
  }

  lemma ReturnReports(env: Env, s: StepResult, callee: Exec)
    requires s.Entering? && Valid(s.m, env.limit) && s.forwarded <= env.limit - s.m.used
    requires callee.energyUsed <= s.forwarded && |s.m.stack| < STACK_LIMIT
    ensures Reports(s.m, ReturnFrom(env, s, callee), IsSuccess(callee.halt), callee.returnData, s.retOff, s.retLen)
  {
    var m := s.m.(used := s.m.used + callee.energyUsed);
    FinishReports(env, m, IsSuccess(callee.halt), callee.returnData, s.retOff, s.retLen);
  }

  /**
   * A CALL runs the callee on the argument bytes and reports it: the flag says whether it
   * succeeded, its output becomes the return data, and the output's prefix lands in the return
   * area with every other byte of memory unchanged.
   */
  lemma CallReportsCallee(w: WorldState, env: Env, m: Machine)
    requires Valid(m, env.limit) && m.pc < |env.code| && StepAt(w, env, m).Entering?
    ensures var s := StepAt(w, env, m);
            var callee := RunFrame(w, CalleeEnv(env, s)).exec;
            && |m.stack| >= 7
            && s.code == GetCode(w, ToBigEndian(Peek(m.stack, 1), 32)[12..])
            && s.input == ReadPadded(m.mem, Low64(Peek(m.stack, 3)), Low64(Peek(m.stack, 4)))
            && s.m.stack == m.stack[..|m.stack| - 7]
            && Reports(s.m, Effect(w, env, m).0, IsSuccess(callee.halt), callee.returnData,
                       Low64(Peek(m.stack, 5)), Low64(Peek(m.stack, 6)))
  {
    var f := Fetch(env, m);
    PlanPrepares(env, f.m);
    var s := StepAt(w, env, m);
    ReturnReports(env, s, RunFrame(w, CalleeEnv(env, s)).exec);
  }

  // -- jumps ----------------------------------------------------------------

  /** The operand is the position of a JUMPDEST byte, be it an instruction or push data. */
  predicate IsTarget(code: seq<byte>, dest: Word) {
    dest < |code| && code[dest] == JUMPDEST
  }

  /** A jump goes exactly to its operand, and fails exactly when no JUMPDEST byte is there. */
  lemma JumpsLandOnJumpdest(env: Env, m: Machine, b: byte)
    requires Valid(m, env.limit) && |env.code| <= U64_MAX && |m.stack| >= 1
    ensures var dest := Peek(m.stack, 0);
            var o := StackOp(Jump, b, env, m);
            if IsTarget(env.code, dest) then o.Next? && o.m.pc == dest
            else o.Halted? && o.e.halt == BadJump
    ensures |m.stack| >= 2 ==>
              var dest := Peek(m.stack, 0);
              var o := StackOp(Jumpi, b, env, m);
              if Peek(m.stack, 1) == 0 then o.Next? && o.m.pc == m.pc + 1
              else if IsTarget(env.code, dest) then o.Next? && o.m.pc == dest
              else o.Halted? && o.e.halt == BadJump
  {
    var dest := Peek(m.stack, 0);
    if dest <= |env.code| {
      SmallWord(dest);
    }
  }

  lemma SmallWord(w: Word)
    requires w <= U64_MAX
    ensures Low64(w) == w
  {
  }

  // -- storage --------------------------------------------------------------

  /** A store is seen by a load of the same slot and by no other load. */
  lemma LoadAfterStore(w: WorldState, a: Body, slot: Word, v: Word, a': Body, slot': Word)
    ensures Sload(Sstore(w, a, slot, v), a', slot') ==
            if slot == slot' && (a == a' || w.backend.HostBacked?) then v else Sload(w, a', slot')
  {
  }
}
