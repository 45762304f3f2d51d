/**
 * The instruction cycle of pkg/machine/controlunit.go as functions on a value
 * of the machine state. Each tick receives operations whose values were
 * computed from the state before the tick (the arguments of doInOneTick are
 * evaluated before any of its closures run); the operations then run in
 * order, the trace line reads mem[AR], and the tick counter advances by one.
 */
module CycleSpec {
  import opened Wrappers
  import Isa
  import Bits
  import Alu
  import opened Datapath

  /** Registers, memory and the tick counter. */
  datatype Cpu = Cpu(regs: map<Register, int>, mem: seq<int>, ticks: int)

  /** How an instruction phase ended: normally (a nil error), with a ControlUnitError, or in a Go panic. */
  datatype Status = Continue | Stopped(message: string) | Panicked(reason: string)

  datatype Step = Step(cpu: Cpu, status: Status)

  /** One closure passed to doInOneTick. */
  datatype Op =
    | Latch(reg: Register, value: int)   // SigLatchRegFunc: the value was computed beforehand
    | WriteMem                           // SigWriteMemoryFunc: reads AR and DR when it runs

  function Reg(c: Cpu, r: Register): int
  {
    RegOf(c.regs, r)
  }

  /** The machine-state invariant: memory has its fixed size. */
  predicate WellSized(c: Cpu)
  {
    |c.mem| == Isa.AddrMaxValue + 1
  }

  function ApplyOp(c: Cpu, op: Op): Step
  {
    match op
    case Latch(r, v) => Step(c.(regs := c.regs[r := v]), Continue)
    case WriteMem =>
      if 0 <= Reg(c, AR) < |c.mem| then Step(c.(mem := c.mem[Reg(c, AR) := Reg(c, DR)]), Continue)
      else Step(c, Panicked("index out of range"))
  }

  /** The operations of one tick, in order; a panicking operation stops the rest. */
  function ApplyOps(c: Cpu, ops: seq<Op>): (s: Step)
    ensures s.cpu.ticks == c.ticks && |s.cpu.mem| == |c.mem|
    ensures s.status.Continue? || s.status.Panicked?
  {
    if ops == [] then Step(c, Continue)
    else
      var s := ApplyOps(c, ops[..|ops| - 1]);
      if !s.status.Continue? then s else ApplyOp(s.cpu, ops[|ops| - 1])
  }

  /** Once an operation of a tick panics, the later operations of that tick do not run. */
  lemma {:induction false} ApplyOpsPanicStays(c: Cpu, ops: seq<Op>, k: nat)
    requires k <= |ops|
    requires !ApplyOps(c, ops[..k]).status.Continue?
    ensures ApplyOps(c, ops) == ApplyOps(c, ops[..k])
    decreases |ops|
  {
    if k < |ops| {
      assert ops[..|ops| - 1][..k] == ops[..k];
      ApplyOpsPanicStays(c, ops[..|ops| - 1], k);
    } else {
      assert ops[..k] == ops;
    }
  }

  /**
   * One doInOneTick: the operations, then the trace line's read of mem[AR]
   * (which panics when AR is outside memory), then the tick.
   */
  function Tick(c: Cpu, ops: seq<Op>): (s: Step)
    ensures s.status.Continue? || s.status.Panicked?
    ensures s.status.Continue? ==> s.cpu.ticks == c.ticks + 1 && 0 <= Reg(s.cpu, AR) < |s.cpu.mem|
    ensures |s.cpu.mem| == |c.mem|
  {
    var s := ApplyOps(c, ops);
    if !s.status.Continue? then s
    else if !(0 <= Reg(s.cpu, AR) < |s.cpu.mem|) then Step(s.cpu, Panicked("index out of range"))
    else Step(s.cpu.(ticks := s.cpu.ticks + 1), Continue)
  }

  /** calculate: the value of the ALU's result word. */
  function Calc(p: Alu.ExecutionParams): Result<int, string>
  {
    Alu.BinaryOperation(p.operation, p.left.value, p.right.value)
  }

  /** aluIncrement: 1 + the register's value. */
  function IncrementParams(v: int): Alu.ExecutionParams
  {
    Alu.NewAluOp(Alu.OpAdd).SetLeftValue(1).SetRightValue(v)
  }

  /** aluDecrement: the register's value - 1. */
  function DecrementParams(v: int): Alu.ExecutionParams
  {
    Alu.NewAluOp(Alu.OpSub).SetLeftValue(v).SetRightValue(1)
  }

  /** aluRegisterPassthrough: 0 + the register's value. */
  function PassthroughParams(v: int): Alu.ExecutionParams
  {
    Alu.NewAluOp(Alu.OpAdd).SetRightValue(v)
  }

  /** toAluOp: the opcode's table entry (OpNone when missing) applied to two register values. */
  function ToAluOpParams(left: int, right: int, opcode: Isa.Opcode): Alu.ExecutionParams
  {
    Alu.NewAluOp(Alu.OpcodeToAluOperation(opcode)).SetLeftValue(left).SetRightValue(right)
  }

  /** The three register helpers never fail and compute v + 1, v - 1 and v. */
  lemma HelperParamValues(v: int)
    ensures Calc(IncrementParams(v)) == Ok(v + 1)
    ensures Calc(DecrementParams(v)) == Ok(v - 1)
    ensures Calc(PassthroughParams(v)) == Ok(v)
  {
  }

  function Inc(c: Cpu, r: Register): int { Calc(IncrementParams(Reg(c, r))).value }
  function Dec(c: Cpu, r: Register): int { Calc(DecrementParams(Reg(c, r))).value }
  function Pass(c: Cpu, r: Register): int { Calc(PassthroughParams(Reg(c, r))).value }
  function ToAluOp(c: Cpu, left: Register, right: Register, opcode: Isa.Opcode): Alu.ExecutionParams
  {
    ToAluOpParams(Reg(c, left), Reg(c, right), opcode)
  }

  /** The PS mask of EI: 1 << 4. */
  const EiMask: int := Bits.Pow2(4)

  /** EI: PS | (1 << 4). */
  function EiParams(ps: int): Alu.ExecutionParams
  {
    Alu.NewAluOp(Alu.OpOr).SetLeftValue(ps).SetRightValue(EiMask)
  }

  /** DI: PS & ^(1 << 4). */
  function DiParams(ps: int): Alu.ExecutionParams
  {
    Alu.NewAluOp(Alu.OpAnd).SetLeftValue(ps).SetRightValue(Bits.Not(EiMask))
  }

  /** Instruction fetch: IP -> AR; IP + 1 -> IP with mem[AR] -> DR; DR -> CR. */
  function FetchSpec(c: Cpu): (s: Step)
    ensures !s.status.Stopped?
  {
    var s1 := Tick(c, [Latch(AR, Pass(c, IP))]);
    if !s1.status.Continue? then s1 else
    var c1 := s1.cpu;
    var s2 := Tick(c1, [Latch(IP, Inc(c1, IP)), Latch(DR, c1.mem[Reg(c1, AR)])]);
    if !s2.status.Continue? then s2 else
    var c2 := s2.cpu;
    Tick(c2, [Latch(CR, Pass(c2, DR))])
  }

  /** Operand fetch: DR -> AR; mem[AR] -> DR. */
  function OperandFetchSpec(c: Cpu): (s: Step)
    ensures !s.status.Stopped?
  {
    var s1 := Tick(c, [Latch(AR, Pass(c, DR))]);
    if !s1.status.Continue? then s1 else
    var c1 := s1.cpu;
    Tick(c1, [Latch(DR, c1.mem[Reg(c1, AR)])])
  }

  /** The execute phase of an address-class instruction, after the instruction fetch. */
  function AddressSpec(c: Cpu, opcode: Isa.Opcode): (s: Step)
    ensures !s.status.Stopped?
  {
    var s := OperandFetchSpec(c);
    if !s.status.Continue? then s else
    var c2 := s.cpu;
    if opcode == Isa.Load then
      Tick(c2, [Latch(AC, Pass(c2, DR))])
    else if opcode == Isa.Store then
      StoreSpec(c2)
    else if Isa.TypeOf(opcode) == Isa.IoType then
      s
    else
      match Calc(ToAluOp(c2, AC, DR, opcode))
      case Err(e) => Step(c2, Panicked(e))
      case Ok(v) => Tick(c2, [Latch(AC, v)])
  }

  /** ST's execute ticks: AC -> DR; DR -> mem[AR]. */
  function StoreSpec(c: Cpu): (s: Step)
    ensures !s.status.Stopped?
  {
    var t := Tick(c, [Latch(DR, Pass(c, AC))]);
    if !t.status.Continue? then t else Tick(t.cpu, [WriteMem])
  }

  /** PUSH: AC -> DR; SP -> AR; SP - 1 -> SP with DR -> mem[AR]. */
  function PushSpec(c: Cpu): (s: Step)
    ensures !s.status.Stopped?
  {
    var s1 := Tick(c, [Latch(DR, Pass(c, AC))]);
    if !s1.status.Continue? then s1 else
    var c1 := s1.cpu;
    var s2 := Tick(c1, [Latch(AR, Pass(c1, SP))]);
    if !s2.status.Continue? then s2 else
    var c2 := s2.cpu;
    Tick(c2, [Latch(SP, Dec(c2, SP)), WriteMem])
  }

  /** POP: SP + 1 -> SP; SP -> AR with mem[AR] -> DR, both from the state before that tick. */
  function PopSpec(c: Cpu): (s: Step)
    ensures !s.status.Stopped?
  {
    var s1 := Tick(c, [Latch(SP, Inc(c, SP))]);
    if !s1.status.Continue? then s1 else
    var c1 := s1.cpu;
    Tick(c1, [Latch(AR, Pass(c1, SP)), Latch(DR, c1.mem[Reg(c1, AR)])])
  }

  /** The execute phase of an addressless instruction, after the instruction fetch. */
  function AddresslessSpec(c: Cpu, opcode: Isa.Opcode): (s: Step)
    ensures s.status.Stopped? ==> opcode == Isa.Hlt || opcode == Isa.Iret
    ensures s.status.Stopped? ==> s.status.message == (if opcode == Isa.Hlt then "Halt" else "Interrupt return")
  {
    match opcode
    case Hlt =>
      var s := Tick(c, []);
      if !s.status.Continue? then s else Step(s.cpu, Stopped("Halt"))
    case Iret =>
      var s := Tick(c, []);
      if !s.status.Continue? then s else Step(s.cpu, Stopped("Interrupt return"))
    case Push => PushSpec(c)
    case Pop => PopSpec(c)
    case Ei => Tick(c, [Latch(PS, Calc(EiParams(Reg(c, PS))).value)])
    case Di => Tick(c, [Latch(PS, Calc(DiParams(Reg(c, PS))).value)])
    // The register argument 0 of toAluOp names AC.
    case Cla => Tick(c, [Latch(AC, Calc(ToAluOp(c, AC, AC, opcode)).value)])
    case Nop => Tick(c, [])
    case _ => AluAddresslessSpec(c, opcode)
  }

  /** Any other addressless opcode: the ALU computes AC op AC into AC, or panics. */
  function AluAddresslessSpec(c: Cpu, opcode: Isa.Opcode): (s: Step)
    ensures !s.status.Stopped?
  {
    match Calc(ToAluOp(c, AC, AC, opcode))
    case Err(e) => Step(c, Panicked(e))
    case Ok(v) => Tick(c, [Latch(AC, v)])
  }

  /** The branch condition, with the flags decoded from PS. */
  function BranchTaken(opcode: Isa.Opcode, flags: Alu.BitFlags): bool
  {
    || (opcode == Isa.Jc && flags.carry)
    || (opcode == Isa.Jnc && !flags.carry)
    || (opcode == Isa.Jn && flags.negative)
    || (opcode == Isa.Jnneg && !flags.negative)
  }

  /** The execute phase of a branch: AR -> IP when the condition holds, otherwise nothing. */
  function BranchSpec(c: Cpu, opcode: Isa.Opcode): (s: Step)
    ensures !s.status.Stopped?
  {
    if BranchTaken(opcode, FlagsOf(Reg(c, PS))) then Tick(c, [Latch(IP, Pass(c, AR))])
    else Step(c, Continue)
  }

  /**
   * DecodeAndExecuteInstruction: the instruction is taken from the program at
   * index IP (a panic when IP is outside it); its class picks the execute phase.
   */
  function DecodeSpec(c: Cpu, instructions: seq<Isa.MachineCodeTerm>): Step
  {
    if !(0 <= Reg(c, IP) < |instructions|) then Step(c, Panicked("index out of range")) else
    var opcode := instructions[Reg(c, IP)].opcode;
    var s := FetchSpec(c);
    if !s.status.Continue? then s else
    match Isa.TypeOf(opcode)
    case AddressType => AddressSpec(s.cpu, opcode)
    case AddresslessType => AddresslessSpec(s.cpu, opcode)
    case BranchType => BranchSpec(s.cpu, opcode)
    case IoType => s
  }

  /** pushOnStack: SP - 1 -> SP with SP -> AR; reg -> DR; DR -> mem[AR]. */
  function PushOnStackSpec(c: Cpu, reg: Register): Step
  {
    var s1 := Tick(c, [Latch(SP, Dec(c, SP)), Latch(AR, Pass(c, SP))]);
    if !s1.status.Continue? then s1 else
    var c1 := s1.cpu;
    var s2 := Tick(c1, [Latch(DR, Pass(c1, reg))]);
    if !s2.status.Continue? then s2 else
    Tick(s2.cpu, [WriteMem])
  }

  /** popFromStack: SP + 1 -> SP with SP -> AR; mem[AR] -> DR; DR -> target. */
  function PopFromStackSpec(c: Cpu, target: Register): Step
  {
    var s1 := Tick(c, [Latch(SP, Inc(c, SP)), Latch(AR, Pass(c, SP))]);
    if !s1.status.Continue? then s1 else
    var c1 := s1.cpu;
    var s2 := Tick(c1, [Latch(DR, c1.mem[Reg(c1, AR)])]);
    if !s2.status.Continue? then s2 else
    var c2 := s2.cpu;
    Tick(c2, [Latch(target, Pass(c2, DR))])
  }

  /** The loop of RunInstructionCycle from instruction counter ic on. */
  function RunFrom(c: Cpu, instructions: seq<Isa.MachineCodeTerm>, ic: int): Step
    decreases |instructions| - ic, 1
  {
    if ic >= |instructions| then Step(c, Continue) else RunStep(c, instructions, ic)
  }

  /** One pass of that loop: the instruction at IP, then the rest of the loop unless it stopped. */
  function RunStep(c: Cpu, instructions: seq<Isa.MachineCodeTerm>, ic: int): Step
    requires ic < |instructions|
    decreases |instructions| - ic, 0
  {
    var s := DecodeSpec(c, instructions);
    if !s.status.Continue? then s else RunFrom(s.cpu, instructions, ic + 1)
  }

  /** The loop has ended once the counter is past the program. */
  lemma RunFromEnd(c: Cpu, instructions: seq<Isa.MachineCodeTerm>, ic: int)
    requires ic >= |instructions|
    ensures RunFrom(c, instructions, ic) == Step(c, Continue)
  {
  }

  /** An instruction that stops or panics ends the loop with its own step. */
  lemma RunFromStop(c: Cpu, instructions: seq<Isa.MachineCodeTerm>, ic: int)
    requires ic < |instructions| && !DecodeSpec(c, instructions).status.Continue?
    ensures RunFrom(c, instructions, ic) == DecodeSpec(c, instructions)
  {
    assert RunFrom(c, instructions, ic) == RunStep(c, instructions, ic);
  }

  /** An instruction that ends normally hands its state to the next iteration. */
  lemma RunFromNext(c: Cpu, instructions: seq<Isa.MachineCodeTerm>, ic: int)
    requires ic < |instructions| && DecodeSpec(c, instructions).status.Continue?
    ensures RunFrom(c, instructions, ic) == RunFrom(DecodeSpec(c, instructions).cpu, instructions, ic + 1)
  {
    assert RunFrom(c, instructions, ic) == RunStep(c, instructions, ic);
  }

  /**
   * The run from `before` at counter ic, once one instruction has left
   * `after` with `status`: it goes on from `after` at ic + 1 while the status
   * is Continue, and ends there otherwise.
   */
  predicate Resumes(before: Cpu, after: Cpu, status: Status, instructions: seq<Isa.MachineCodeTerm>, ic: int)
  {
    RunFrom(before, instructions, ic)
      == if status.Continue? then RunFrom(after, instructions, ic + 1) else Step(after, status)
  }

  /** One pass of the loop, for a state known only through the step that produced it. */
  lemma RunFromDecoded(before: Cpu, after: Cpu, status: Status, instructions: seq<Isa.MachineCodeTerm>, ic: int)
    requires ic < |instructions| && Step(after, status) == DecodeSpec(before, instructions)
    ensures Resumes(before, after, status, instructions, ic)
  {
    if status.Continue? {
      RunFromNext(before, instructions, ic);
    } else {
      RunFromStop(before, instructions, ic);
    }
  }

  /** RunInstructionCycle: IP is preset to the start address, then the loop runs. */
  function RunSpec(c: Cpu, program: Isa.Program): Step
  {
    RunFrom(c.(regs := c.regs[IP := program.startAddress]), program.instructions, program.startAddress)
  }
}
