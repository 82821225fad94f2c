/**
 * The execution loop of the virtual machine: stack, memory, energy meter, journaled world,
 * inter-contract CALL and SELFDESTRUCT. `Run` gives the meaning of a frame as a function
 * on values; `ExecuteFrame` is the loop, proved equal to it.
 */
module Engine {
  import opened Words
  import opened Energy
  import opened WorldModel

  const MAX_CALL_DEPTH: nat := 1024
  const STACK_LIMIT: nat := 1024
  const JUMPDEST: byte := 0x5b
  const CALL: byte := 0xf1
  const SELFDESTRUCT: byte := 0xff

  // -- opcodes ------------------------------------------------------------

  datatype Op =
    | Stop | Arith(f: BinaryOp) | IsZero | Pop | Dup1 | Swap1 | Push1 | Push2
    | CallDataLoad | CallDataSize | CallDataCopy | ReturnDataSize | ReturnDataCopy
    | Mload | Mstore | Mstore8 | LoadSlot | StoreSlot
    | Jump | Jumpi | Jumpdest | Call | Return | Revert | VoteWitness | SelfDestruct
    | Unsupported

  /** `OpCode::from_u8`; opcodes that decode but have no semantics are `Unsupported`. */
  function Decode(b: byte): Option<Op> {
    match b
    case 0x00 => Some(Stop)
    case 0x01 => Some(Arith(Add))
    case 0x02 => Some(Arith(Mul))
    case 0x03 => Some(Arith(Sub))
    case 0x04 => Some(Arith(Div))
    case 0x05 => Some(Unsupported)
    case 0x06 => Some(Arith(Mod))
    case 0x0a => Some(Arith(Exp))
    case 0x10 => Some(Arith(Lt))
    case 0x11 => Some(Arith(Gt))
    case 0x14 => Some(Arith(Eq))
    case 0x15 => Some(IsZero)
    case 0x16 => Some(Arith(And))
    case 0x17 => Some(Arith(Or))
    case 0x18 => Some(Arith(Xor))
    case 0x35 => Some(CallDataLoad)
    case 0x36 => Some(CallDataSize)
    case 0x37 => Some(CallDataCopy)
    case 0x3d => Some(ReturnDataSize)
    case 0x3e => Some(ReturnDataCopy)
    case 0x50 => Some(Pop)
    case 0x51 => Some(Mload)
    case 0x52 => Some(Mstore)
    case 0x53 => Some(Mstore8)
    case 0x54 => Some(LoadSlot)
    case 0x55 => Some(StoreSlot)
    case 0x56 => Some(Jump)
    case 0x57 => Some(Jumpi)
    case 0x5b => Some(Jumpdest)
    case 0x60 => Some(Push1)
    case 0x61 => Some(Push2)
    case 0x80 => Some(Dup1)
    case 0x90 => Some(Swap1)
    case 0xd8 => Some(VoteWitness)
    case 0xf1 => Some(Call)
    case 0xf3 => Some(Return)
    case 0xfd => Some(Revert)
    case 0xfe => Some(Unsupported)
    case 0xff => Some(SelfDestruct)
    case _ => if 0xd0 <= b <= 0xdf then Some(Unsupported) else None
  }

  /** The static price of an instruction (`b` is its byte); SSTORE is priced when it runs. */
  function BaseCost(op: Op, b: byte): nat {
    match op
    case Stop | Return | Revert => 0
    case Arith(f) =>
      (match f
       case Mul | Div | Mod => 5
       case Exp => 10
       case _ => 3)
    case IsZero | Pop | Dup1 | Swap1 | Push1 | Push2 => 3
    case CallDataLoad | CallDataCopy | ReturnDataCopy | Mload | Mstore | Mstore8 => 3
    case CallDataSize | ReturnDataSize => 2
    case LoadSlot => SLOAD
    case StoreSlot | VoteWitness => 0
    case SelfDestruct => SUICIDE
    case Jumpdest => 1
    case Jump => 8
    case Jumpi => 10
    case Call => 40
    case Unsupported => if b == 0x05 then 5 else if b == 0xd0 then 40 else if b == 0xfe then 0 else 2
  }

  // -- one frame's state --------------------------------------------------

  datatype Halt =
    | Stopped | Returned | Reverted | SelfDestructed | OutOfEnergy
    | StackUnderflow | StackOverflow | BadOpcode(b: byte) | BadJump | DepthLimit

  predicate IsSuccess(h: Halt) {
    h == Stopped || h == Returned || h == SelfDestructed
  }

  datatype Exec = Exec(halt: Halt, energyUsed: nat, returnData: seq<byte>, stackTop: Option<Word>)

  /** What stays fixed while a frame runs. Precompile outputs are an arbitrary function. */
  datatype Env = Env(
    address: Body, code: seq<byte>, calldata: seq<byte>, limit: nat, depth: nat,
    precompile: (nat, seq<byte>) -> seq<byte>)

  datatype Machine = Machine(pc: nat, stack: seq<Word>, mem: seq<byte>, used: nat, ret: seq<byte>)

  const Fresh: Machine := Machine(0, [], [], 0, [])

  /** The stack is bounded, memory is paid for, and the meter is within a `u64` limit. */
  predicate Valid(m: Machine, limit: nat) {
    |m.stack| <= STACK_LIMIT && PaidFor(m.mem, m.used) && m.used <= limit <= U64_MAX
  }

  datatype Outcome = Next(m: Machine) | Halted(e: Exec)

  function Top(s: seq<Word>): Option<Word> {
    if s == [] then None else Some(s[|s| - 1])
  }

  /** The `i`-th word from the top of the stack. */
  function Peek(s: seq<Word>, i: nat): Word
    requires i < |s|
  {
    s[|s| - 1 - i]
  }

  function Drop(m: Machine, n: nat): (r: Machine)
    requires n <= |m.stack|
  {
    m.(stack := m.stack[..|m.stack| - n])
  }

  function HaltWith(h: Halt, m: Machine): Outcome {
    Halted(Exec(h, m.used, [], Top(m.stack)))
  }

  /** Running out of operands: the stack has been emptied by the pops. */
  function Underflow(m: Machine): Outcome {
    Halted(Exec(StackUnderflow, m.used, [], None))
  }

  /** Push and move to the next instruction. */
  function Push(m: Machine, v: Word): Outcome {
    if |m.stack| >= STACK_LIMIT then HaltWith(StackOverflow, m)
    else Next(m.(stack := m.stack + [v], pc := m.pc + 1))
  }

  /** Expand memory to `end` and charge for it. */
  function Grow(m: Machine, limit: nat, end: nat): (r: Option<Machine>)
    requires Valid(m, limit)
    ensures r.Some? ==> Valid(r.value, limit) && m.used <= r.value.used
  {
    ExpansionIsPaidFor(m.mem, end, m.used);
    var cost := ExpansionCost(m.mem, end);
    if m.used + cost <= limit
    then Some(m.(mem := Expanded(m.mem, end), used := m.used + cost))
    else None
  }

  /** Grow for an access of `len` bytes at `off`; on success the access is in range. */
  function GrowFor(m: Machine, limit: nat, off: nat, len: nat): (r: Option<Machine>)
    requires Valid(m, limit)
    ensures r.Some? ==> Valid(r.value, limit) && m.used <= r.value.used
                        && off + len <= |r.value.mem| && r.value.stack == m.stack
  {
    var r := Grow(m, limit, SaturatingAdd(off, len));
    if r.Some? then PaidAccessIsInRange(m.mem, off, len, m.used, limit); r else r
  }

  function CodeAt(code: seq<byte>, i: nat): byte {
    if i < |code| then code[i] else 0
  }

  // -- instructions that touch only the frame ------------------------------

  predicate ChargedTo(o: Outcome, m: Machine, limit: nat) {
    match o
    case Next(n) => Valid(n, limit) && m.used <= n.used
    case Halted(e) => m.used <= e.energyUsed <= limit
  }

  function JumpTo(env: Env, m: Machine, dest: Word): Outcome {
    var d := Low64(dest);
    if dest > |env.code| || d >= |env.code| || env.code[d] != JUMPDEST
    then HaltWith(BadJump, m)
    else Next(m.(pc := d))
  }

  /** Instructions on the stack and the program counter. */
  function StackOp(op: Op, b: byte, env: Env, m: Machine): (o: Outcome)
    requires Valid(m, env.limit)
    ensures ChargedTo(o, m, env.limit)
    ensures BaseCost(op, b) == 0 ==> o.Halted?
  {
    var s := m.stack;
    match op
    case Stop => HaltWith(Stopped, m)
    case Arith(f) =>
      if |s| < 2 then Underflow(m) else Push(Drop(m, 2), Binary(f, Peek(s, 0), Peek(s, 1)))
    case IsZero => if |s| < 1 then Underflow(m) else Push(Drop(m, 1), OfBool(Peek(s, 0) == 0))
    case Pop => if |s| < 1 then Underflow(m) else Next(Drop(m, 1).(pc := m.pc + 1))
    case Dup1 => if |s| < 1 then Underflow(m) else Push(m, Peek(s, 0))
    case Swap1 =>
      if |s| < 2 then HaltWith(StackUnderflow, m)
      else Next(m.(stack := s[..|s| - 2] + [Peek(s, 0), Peek(s, 1)], pc := m.pc + 1))
    case Push1 => Push(m.(pc := m.pc + 1), CodeAt(env.code, m.pc + 1))
    case Push2 =>
      Push(m.(pc := m.pc + 2), CodeAt(env.code, m.pc + 1) * 0x100 + CodeAt(env.code, m.pc + 2))
    case CallDataLoad =>
      if |s| < 1 then Underflow(m)
      else Push(Drop(m, 1), WordOfBytes(ReadPadded(env.calldata, Low64(Peek(s, 0)), 32)))
    case CallDataSize => Push(m, |env.calldata| % WORD_SIZE)
    case ReturnDataSize => Push(m, |m.ret| % WORD_SIZE)
    case Jump => if |s| < 1 then Underflow(m) else JumpTo(env, Drop(m, 1), Peek(s, 0))
    case Jumpi =>
      if |s| < 2 then Underflow(m)
      else if Peek(s, 1) != 0 then JumpTo(env, Drop(m, 2), Peek(s, 0))
      else Next(Drop(m, 2).(pc := m.pc + 1))
    case Jumpdest => Next(m.(pc := m.pc + 1))
    case _ => HaltWith(BadOpcode(b), m)
  }

  /** CALLDATACOPY and RETURNDATACOPY. */
  function CopyOp(source: seq<byte>, env: Env, m: Machine): (o: Outcome)
    requires Valid(m, env.limit)
    ensures ChargedTo(o, m, env.limit)
  {
    var s := m.stack;
    if |s| < 3 then Underflow(m)
    else
      var dest, off, len := Low64(Peek(s, 0)), Low64(Peek(s, 1)), Low64(Peek(s, 2));
      match GrowFor(Drop(m, 3), env.limit, dest, len)
      case None => HaltWith(OutOfEnergy, Drop(m, 3))
      case Some(g) =>
        Next(g.(mem := Overwrite(g.mem, dest, ReadPadded(source, off, len)), pc := m.pc + 1))
  }

  /** MLOAD, MSTORE and MSTORE8. */
  function WordMemoryOp(op: Op, env: Env, m: Machine): (o: Outcome)
    requires Valid(m, env.limit)
    ensures ChargedTo(o, m, env.limit)
  {
    var s := m.stack;
    var pops := if op == Mload then 1 else 2;
    if |s| < pops then Underflow(m)
    else
      var off := Low64(Peek(s, 0));
      match GrowFor(Drop(m, pops), env.limit, off, if op == Mstore8 then 1 else 32)
      case None => HaltWith(OutOfEnergy, Drop(m, pops))
      case Some(g) =>
        if op == Mload then Push(g, LoadWord(g.mem, off))
        else if op == Mstore then Next(g.(mem := StoreWord(g.mem, off, Peek(s, 1)), pc := m.pc + 1))
        else Next(g.(mem := Overwrite(g.mem, off, [Low64(Peek(s, 1)) % 0x100]), pc := m.pc + 1))
  }

  /** RETURN and REVERT. */
  function ReturnOp(op: Op, env: Env, m: Machine): (o: Outcome)
    requires Valid(m, env.limit)
    ensures o.Halted? && ChargedTo(o, m, env.limit)
  {
    var s := m.stack;
    if |s| < 2 then Underflow(m)
    else
      var off, len := Low64(Peek(s, 0)), Low64(Peek(s, 1));
      match GrowFor(Drop(m, 2), env.limit, off, len)
      case None => HaltWith(OutOfEnergy, Drop(m, 2))
      case Some(g) =>
        Halted(Exec(if op == Return then Returned else Reverted, g.used, g.mem[off..off + len], Top(g.stack)))
  }

  /** VOTEWITNESS: priced, but records no vote and pushes 0. */
  function VoteOp(env: Env, m: Machine): (o: Outcome)
    requires Valid(m, env.limit)
    ensures ChargedTo(o, m, env.limit)
    ensures o.Next? ==> m.used < o.m.used
  {
    var s := m.stack;
    if |s| < 4 then Underflow(m)
    else
      var d := Drop(m, 4);
      match Charge(m.used, env.limit, VOTE_WITNESS)
      case None => HaltWith(OutOfEnergy, d)
      case Some(used) =>
        var extent := VoteWitnessExtent(Low64(Peek(s, 3)), Low64(Peek(s, 2)), Low64(Peek(s, 1)), Low64(Peek(s, 0)));
        match Grow(d.(used := used), env.limit, extent)
        case None => HaltWith(OutOfEnergy, d.(used := used))
        case Some(g) => Push(g, 0)
  }

  /** Every instruction that does not touch the world. */
  function LocalOp(op: Op, b: byte, env: Env, m: Machine): (o: Outcome)
    requires Valid(m, env.limit)
    ensures ChargedTo(o, m, env.limit)
    ensures BaseCost(op, b) == 0 && o.Next? ==> m.used < o.m.used
  {
    match op
    case CallDataCopy => CopyOp(env.calldata, env, m)
    case ReturnDataCopy => CopyOp(m.ret, env, m)
    case Mload | Mstore | Mstore8 => WordMemoryOp(op, env, m)
    case Return | Revert => ReturnOp(op, env, m)
    case VoteWitness => VoteOp(env, m)
    case _ => StackOp(op, b, env, m)
  }

  // -- CALL ---------------------------------------------------------------

  datatype CallPlan =
    | CallFault(e: Exec)
    | Precompiled(m: Machine, output: seq<byte>, retOff: nat, retLen: nat)
    | ToContract(m: Machine, callee: Body, input: seq<byte>, requested: nat, retOff: nat, retLen: nat)

  /** CALL up to the dispatch: pop seven operands, pay for the arguments, read them. */
  function PlanCall(env: Env, m: Machine): (p: CallPlan)
    requires Valid(m, env.limit)
    ensures p.CallFault? ==> m.used <= p.e.energyUsed <= env.limit
    ensures !p.CallFault? ==> Valid(p.m, env.limit) && m.used <= p.m.used && |p.m.stack| + 7 <= STACK_LIMIT
  {
    var s := m.stack;
    if |s| < 7 then CallFault(Underflow(m).e)
    else
      var target := Peek(s, 1);
      var argsOff, argsLen := Low64(Peek(s, 3)), Low64(Peek(s, 4));
      var retOff, retLen := Low64(Peek(s, 5)), Low64(Peek(s, 6));
      match GrowFor(Drop(m, 7), env.limit, argsOff, argsLen)
      case None => CallFault(HaltWith(OutOfEnergy, Drop(m, 7)).e)
      case Some(g) =>
        var input := g.mem[argsOff..argsOff + argsLen];
        if target < 0x100 && PrecompileEnergy(target, |input|).Some? then
          match Charge(g.used, env.limit, PrecompileEnergy(target, |input|).value)
          case None => CallFault(HaltWith(OutOfEnergy, g).e)
          case Some(used) => Precompiled(g.(used := used), env.precompile(target, input), retOff, retLen)
        else
          ToContract(g, ToBigEndian(target, 32)[12..], input, Low64(Peek(s, 0)), retOff, retLen)
  }

  /** Energy forwarded to a callee: the request, capped at all but one 64th. */
  function Forwarded(m: Machine, limit: nat, requested: nat): (f: nat)
    requires m.used <= limit
    ensures f <= limit - m.used
  {
    var remaining := limit - m.used;
    var most := remaining - remaining / 64;
    if requested <= most then requested else most
  }

  /** CALL after the dispatch: remember the output, copy it out, push the flag. */
  function FinishCall(env: Env, m: Machine, success: bool, output: seq<byte>, retOff: nat, retLen: nat): (o: Outcome)
    requires Valid(m, env.limit)
    ensures ChargedTo(o, m, env.limit)
  {
    var m1 := m.(ret := output);
    if success && retLen > 0 then
      match GrowFor(m1, env.limit, retOff, retLen)
      case None => HaltWith(OutOfEnergy, m1)
      case Some(g) =>
        var n := if retLen <= |output| then retLen else |output|;
        Push(g.(mem := Overwrite(g.mem, retOff, output[..n])), OfBool(success))
    else Push(m1, OfBool(success))
  }

  // -- one instruction ----------------------------------------------------

  datatype Fetched = Fault(e: Exec) | Ready(op: Op, b: byte, m: Machine)

  /** Decode the instruction at `pc` and charge its static price. */
  function Fetch(env: Env, m: Machine): (f: Fetched)
    requires Valid(m, env.limit) && m.pc < |env.code|
    ensures f.Fault? ==> m.used <= f.e.energyUsed <= env.limit
    ensures f.Ready? ==> Valid(f.m, env.limit) && f.m.used == m.used + BaseCost(f.op, f.b)
    ensures f.Ready? ==> f.m.stack == m.stack
  {
    var b := env.code[m.pc];
    match Decode(b)
    case None => Fault(HaltWith(BadOpcode(b), m).e)
    case Some(op) =>
      match Charge(m.used, env.limit, BaseCost(op, b))
      case None => Fault(HaltWith(OutOfEnergy, m).e)
      case Some(used) => Ready(op, b, m.(used := used))
  }

  datatype StepResult =
    | Went(o: Outcome, w: WorldState, exact: bool)
    | Entering(m: Machine, callee: Body, code: seq<byte>, input: seq<byte>, forwarded: nat, retOff: nat, retLen: nat)

  /** SSTORE up to the write: the machine that performs it, or why it does not happen. */
  function PayStore(env: Env, m: Machine, current: Word): (o: Outcome)
    requires Valid(m, env.limit) && |m.stack| >= 2
    ensures ChargedTo(o, m, env.limit)
    ensures o.Next? ==> m.used < o.m.used
  {
    var d := Drop(m, 2);
    match Charge(m.used, env.limit, SstoreCost(current == 0, Peek(m.stack, 1) == 0))
    case None => HaltWith(OutOfEnergy, d)
    case Some(used) => Next(d.(used := used, pc := m.pc + 1))
  }

  /** The account a SELFDESTRUCT operand names. */
  function Beneficiary(word: Word): Address {
    FromBody(ToBigEndian(word, 32)[12..])
  }

  /** SELFDESTRUCT, which the single-contract host path does not support. */
  function SelfDestructOp(w: WorldState, env: Env, b: byte, m: Machine): (r: StepResult)
    requires Valid(m, env.limit)
    ensures r.Went? && r.o.Halted? && ChargedTo(r.o, m, env.limit)
  {
    if w.backend.HostBacked? then Went(HaltWith(BadOpcode(b), m), w, true)
    else if |m.stack| < 1 then Went(Underflow(m), w, true)
    else if |env.address| != 20 then Went(HaltWith(BadOpcode(b), Drop(m, 1)), w, true)
    else
      var self, heir := FromBody(env.address), Beneficiary(Peek(m.stack, 0));
      match Charge(m.used, env.limit, SuicideCost(AccountExists(w, heir)))
      case None => Went(HaltWith(OutOfEnergy, Drop(m, 1)), w, true)
      case Some(used) =>
        Went(HaltWith(SelfDestructed, Drop(m, 1).(used := used)), Suicide(w, self, heir),
             SuicideStaysExact(w, self, heir))
  }

  /** CALL: a precompile, an account without code, or a contract to enter. */
  function CallOp(w: WorldState, env: Env, m: Machine): (r: StepResult)
    requires Valid(m, env.limit)
    ensures r.Went? ==> ChargedTo(r.o, m, env.limit)
    ensures r.Entering? ==> Valid(r.m, env.limit) && m.used <= r.m.used
                            && r.forwarded <= env.limit - r.m.used
  {
    match PlanCall(env, m)
    case CallFault(e) => Went(Halted(e), w, true)
    case Precompiled(m1, output, retOff, retLen) =>
      Went(FinishCall(env, m1, true, output, retOff, retLen), w, true)
    case ToContract(m1, callee, input, requested, retOff, retLen) =>
      var code := GetCode(w, callee);
      if code == [] then Went(FinishCall(env, m1, false, [], retOff, retLen), w, true)
      else Entering(m1, callee, code, input, Forwarded(m1, env.limit, requested), retOff, retLen)
  }

  /** One instruction after `Fetch`, on the whole state. */
  function Step(w: WorldState, env: Env, op: Op, b: byte, m: Machine): (r: StepResult)
    requires Valid(m, env.limit)
    ensures r.Went? ==> ChargedTo(r.o, m, env.limit)
    ensures r.Went? && BaseCost(op, b) == 0 && r.o.Next? ==> m.used < r.o.m.used
    ensures r.Entering? ==> op == Call && Valid(r.m, env.limit) && m.used <= r.m.used
                            && r.forwarded <= env.limit - r.m.used
  {
    var s := m.stack;
    match op
    case LoadSlot =>
      if |s| < 1 then Went(Underflow(m), w, true)
      else Went(Push(Drop(m, 1), Sload(w, env.address, Peek(s, 0))), w, true)
    case StoreSlot =>
      if |s| < 2 then Went(Underflow(m), w, true)
      else
        var o := PayStore(env, m, Sload(w, env.address, Peek(s, 0)));
        Went(o, if o.Next? then Sstore(w, env.address, Peek(s, 0), Peek(s, 1)) else w, true)
    case SelfDestruct => SelfDestructOp(w, env, b, m)
    case Call => CallOp(w, env, m)
    case _ => Went(LocalOp(op, b, env, m), w, true)
  }

  predicate TouchesWorld(op: Op) {
    op == LoadSlot || op == StoreSlot || op == SelfDestruct || op == Call
  }

  lemma LocalStep(w: WorldState, env: Env, op: Op, b: byte, m: Machine)
    requires Valid(m, env.limit) && !TouchesWorld(op)
    ensures Step(w, env, op, b, m) == Went(LocalOp(op, b, env, m), w, true)
  {
  }

  lemma CallStep(w: WorldState, env: Env, b: byte, m: Machine)
    requires Valid(m, env.limit)
    ensures Step(w, env, Call, b, m) == CallOp(w, env, m)
  {
  }

  lemma SelfDestructStep(w: WorldState, env: Env, b: byte, m: Machine)
    requires Valid(m, env.limit)
    ensures Step(w, env, SelfDestruct, b, m) == SelfDestructOp(w, env, b, m)
  {
  }

  // -- whole frames -------------------------------------------------------

  /**
   * What a frame leaves: its result, the world, the instructions executed in it and in all
   * frames below it, how many contracts were entered, how many of those calls were committed,
   * and whether no burn saturated.
   */
  datatype RunResult =
    RunResult(exec: Exec, world: WorldState, steps: nat, entered: nat, commits: nat, exact: bool)

  function CalleeEnv(env: Env, s: StepResult): Env
    requires s.Entering?
  {
    Env(s.callee, s.code, s.input, s.forwarded, env.depth + 1, env.precompile)
  }

  /** `let _ = meter.charge(..)`: a refused charge would be dropped. */
  function ChargeSilently(m: Machine, limit: nat, amount: nat): Machine {
    match Charge(m.used, limit, amount)
    case Some(used) => m.(used := used)
    case None => m
  }

  /** Keep or take back what a callee did. */
  function Settle(sub: RunResult, cp: nat): WorldState {
    if IsSuccess(sub.exec.halt) then Commit(sub.world, cp) else RevertTo(sub.world, cp)
  }

  /** What an instruction that starts with `floor` energy used may lead to. */
  predicate Progress(s: StepResult, floor: nat, limit: nat) {
    match s
    case Went(o, _, _) =>
      (match o
       case Next(n) => Valid(n, limit) && floor < n.used
       case Halted(e) => floor <= e.energyUsed <= limit)
    case Entering(m, _, _, _, forwarded, _, _) =>
      Valid(m, limit) && floor + 40 <= m.used && forwarded <= limit - m.used
  }

  /** The instruction at `pc`: fetch, then step. */
  function StepAt(w: WorldState, env: Env, m: Machine): (s: StepResult)
    requires Valid(m, env.limit) && m.pc < |env.code|
    ensures Progress(s, m.used, env.limit)
  {
    match Fetch(env, m)
    case Fault(e) => Went(Halted(e), w, true)
    case Ready(op, b, m1) => Step(w, env, op, b, m1)
  }

  function RunFrame(w: WorldState, env: Env): (r: RunResult)
    requires env.limit <= U64_MAX
    ensures r.exec.energyUsed <= env.limit
    ensures r.steps <= r.exec.energyUsed + 1
    decreases env.limit, 2
  {
    if env.depth > MAX_CALL_DEPTH then RunResult(Exec(DepthLimit, 0, [], None), w, 0, 0, 0, true)
    else Run(w, env, Fresh)
  }

  function Run(w: WorldState, env: Env, m: Machine): (r: RunResult)
    requires Valid(m, env.limit)
    ensures m.used <= r.exec.energyUsed <= env.limit
    ensures r.steps <= r.exec.energyUsed - m.used + 1
    decreases env.limit - m.used, 1
  {
    if m.pc >= |env.code| then RunResult(HaltWith(Stopped, m).e, w, 0, 0, 0, true)
    else Continue(w, env, m.used, StepAt(w, env, m))
  }

  /** The rest of a frame whose current instruction, started in `w`, gave `s`. */
  function Continue(w: WorldState, env: Env, floor: nat, s: StepResult): (r: RunResult)
    requires floor <= env.limit <= U64_MAX && Progress(s, floor, env.limit)
    ensures floor <= r.exec.energyUsed <= env.limit
    ensures r.steps <= r.exec.energyUsed - floor + 1
    decreases env.limit - floor, 0
  {
    match s
    case Went(o, w', exact) =>
      (match o
       case Halted(e) => RunResult(e, w', 1, 0, 0, exact)
       case Next(m) =>
         var r := Run(w', env, m);
         r.(steps := r.steps + 1, exact := r.exact && exact))
    case Entering(m, _, _, _, _, retOff, retLen) =>
      var sub := RunFrame(w, CalleeEnv(env, s));
      var w' := Settle(sub, |w.journal|);
      var commits := sub.commits + if IsSuccess(sub.exec.halt) then 1 else 0;
      match ReturnFrom(env, s, sub.exec)
      case Halted(e) => RunResult(e, w', sub.steps + 1, sub.entered + 1, commits, sub.exact)
      case Next(m') =>
        var r := Run(w', env, m');
        r.(steps := r.steps + sub.steps + 1, entered := r.entered + sub.entered + 1,
           commits := r.commits + commits, exact := r.exact && sub.exact)
  }

  /** Back in the caller: charge what the callee used, then finish the CALL. */
  function ReturnFrom(env: Env, s: StepResult, callee: Exec): (o: Outcome)
    requires s.Entering? && Valid(s.m, env.limit) && s.forwarded <= env.limit - s.m.used
    requires callee.energyUsed <= s.forwarded
    ensures ChargedTo(o, s.m.(used := s.m.used + callee.energyUsed), env.limit)
  {
    var m := ChargeSilently(s.m, env.limit, callee.energyUsed);
    FinishCall(env, m, IsSuccess(callee.halt), callee.returnData, s.retOff, s.retLen)
  }
}
