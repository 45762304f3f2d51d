/**
 * The control unit of pkg/machine/controlunit.go: it owns the program, the
 * instruction counter and the tick counter, and drives the datapath one tick
 * at a time. Every method is proved to do what the CycleSpec function of the
 * same phase says.
 */
module Control {
  import opened Wrappers
  import Isa
  import Alu
  import opened Datapath
  import opened CycleSpec

  class ControlUnit {
    const program: Isa.Program
    const dataPath: DataPath
    var instructionCounter: int
    var tickCounter: int

    ghost predicate Valid()
      reads this, dataPath
    {
      dataPath.Valid()
    }

    /** The machine state the specification functions talk about. */
    ghost function Snapshot(): Cpu
      reads this`tickCounter, dataPath, dataPath.memory
    {
      Cpu(dataPath.registers, dataPath.memory[..], tickCounter)
    }

    constructor (program: Isa.Program, dataPath: DataPath)
      requires dataPath.Valid()
      ensures Valid()
      ensures this.program == program && this.dataPath == dataPath
      ensures instructionCounter == 0 && tickCounter == 0
    {
      this.program := program;
      this.dataPath := dataPath;
      instructionCounter := 0;
      tickCounter := 0;
    }

    function GetReg(r: Register): int
      reads this, dataPath
    {
      dataPath.GetRegister(r)
    }

    method Tick()
      modifies this`tickCounter
      ensures tickCounter == old(tickCounter) + 1
    {
      tickCounter := tickCounter + 1;
    }

    /** calculate: runs the ALU and keeps the value of its result word. */
    method Calculate(p: Alu.ExecutionParams) returns (r: Result<int, string>)
      modifies dataPath.alu
      ensures r == Calc(p)
      ensures !p.updateFlags ==> dataPath.alu.bitFlags == old(dataPath.alu.bitFlags)
    {
      var result := dataPath.alu.Execute(p);
      if result.AluPanic? {
        return Err(result.reason);
      }
      r := Ok(result.word.value);
    }

    /**
     * doInOneTick: the operations run in order (their values were computed by
     * the caller, before the tick), the trace line reads mem[AR], and the tick
     * counter advances by one.
     */
    method DoInOneTick(ops: seq<Op>) returns (status: Status)
      requires Valid()
      modifies this`tickCounter, dataPath, dataPath.memory
      ensures Valid()
      ensures Step(Snapshot(), status) == CycleSpec.Tick(old(Snapshot()), ops)
    {
      for i := 0 to |ops|
        invariant Valid()
        invariant tickCounter == old(tickCounter)
        invariant ApplyOps(old(Snapshot()), ops[..i]) == Step(Snapshot(), Continue)
      {
        assert ops[..i + 1][..i] == ops[..i];
        match ops[i]
        case Latch(r, v) =>
          dataPath.SigLatchRegister(r, v);
        case WriteMem =>
          var ok := dataPath.WriteMemory();
          if !ok {
            assert ops[..i + 1][..i + 1] == ops[..i + 1];
            ApplyOpsPanicStays(old(Snapshot()), ops, i + 1);
            return Panicked("index out of range");
          }
      }
      assert ops[..|ops|] == ops;
      var cell := dataPath.ReadMemory(GetReg(AR));
      if cell.Err? {
        return Panicked("index out of range");
      }
      Tick();
      status := Continue;
    }

    /** The frame shared by every phase: the datapath, its memory, the ALU and the tick counter. */
    method InstructionFetch() returns (status: Status)
      requires Valid()
      modifies this`tickCounter, dataPath, dataPath.memory, dataPath.alu
      ensures Valid()
      ensures Step(Snapshot(), status) == FetchSpec(old(Snapshot()))
      ensures dataPath.alu.bitFlags == old(dataPath.alu.bitFlags)
    {
      var ar := Calculate(PassthroughParams(GetReg(IP)));
      status := DoInOneTick([Latch(AR, ar.value)]);
      if !status.Continue? { return; }
      var ip := Calculate(IncrementParams(GetReg(IP)));
      var cell := dataPath.ReadMemory(GetReg(AR));
      status := DoInOneTick([Latch(IP, ip.value), Latch(DR, cell.value)]);
      if !status.Continue? { return; }
      var cr := Calculate(PassthroughParams(GetReg(DR)));
      status := DoInOneTick([Latch(CR, cr.value)]);
    }

    method OperandFetch() returns (status: Status)
      requires Valid()
      modifies this`tickCounter, dataPath, dataPath.memory, dataPath.alu
      ensures Valid()
      ensures Step(Snapshot(), status) == OperandFetchSpec(old(Snapshot()))
      ensures dataPath.alu.bitFlags == old(dataPath.alu.bitFlags)
    {
      var ar := Calculate(PassthroughParams(GetReg(DR)));
      status := DoInOneTick([Latch(AR, ar.value)]);
      if !status.Continue? { return; }
      var cell := dataPath.ReadMemory(GetReg(AR));
      status := DoInOneTick([Latch(DR, cell.value)]);
    }
  
    /** decodeAndExecuteAddressInstruction: operand fetch, then the opcode's execute tick. */
    method DecodeAndExecuteAddressInstruction(instruction: Isa.MachineCodeTerm) returns (status: Status)
      requires Valid()
      modifies this`tickCounter, dataPath, dataPath.memory, dataPath.alu
      ensures Valid()
      ensures Step(Snapshot(), status) == AddressSpec(old(Snapshot()), instruction.opcode)
      ensures dataPath.alu.bitFlags == old(dataPath.alu.bitFlags)
    {
      status := OperandFetch();
      if !status.Continue? { return; }
      var opcode := instruction.opcode;
      if opcode == Isa.Load {
        var v := Calculate(PassthroughParams(GetReg(DR)));
        status := DoInOneTick([Latch(AC, v.value)]);
      } else if opcode == Isa.Store {
        var v := Calculate(PassthroughParams(GetReg(AC)));
        status := DoInOneTick([Latch(DR, v.value)]);
        if !status.Continue? { return; }
        status := DoInOneTick([WriteMem]);
      } else if Isa.TypeOf(opcode) == Isa.IoType {
      } else {
        var v := Calculate(ToAluOpParams(GetReg(AC), GetReg(DR), opcode));
        if v.Err? {
          return Panicked(v.error);
        }
        status := DoInOneTick([Latch(AC, v.value)]);
      }
    }

    /** PUSH: AC -> DR; SP -> AR; SP - 1 -> SP with DR -> mem[AR]. */
    method ExecutePush() returns (status: Status)
      requires Valid()
      modifies this`tickCounter, dataPath, dataPath.memory, dataPath.alu
      ensures Valid()
      ensures Step(Snapshot(), status) == PushSpec(old(Snapshot()))
      ensures dataPath.alu.bitFlags == old(dataPath.alu.bitFlags)
    {
      var dr := Calculate(PassthroughParams(GetReg(AC)));
      status := DoInOneTick([Latch(DR, dr.value)]);
      if !status.Continue? { return; }
      var ar := Calculate(PassthroughParams(GetReg(SP)));
      status := DoInOneTick([Latch(AR, ar.value)]);
      if !status.Continue? { return; }
      var sp := Calculate(DecrementParams(GetReg(SP)));
      status := DoInOneTick([Latch(SP, sp.value), WriteMem]);
    }

    /** POP: SP + 1 -> SP; SP -> AR with mem[AR] -> DR. */
    method ExecutePop() returns (status: Status)
      requires Valid()
      modifies this`tickCounter, dataPath, dataPath.memory, dataPath.alu
      ensures Valid()
      ensures Step(Snapshot(), status) == PopSpec(old(Snapshot()))
      ensures dataPath.alu.bitFlags == old(dataPath.alu.bitFlags)
    {
      var sp := Calculate(IncrementParams(GetReg(SP)));
      status := DoInOneTick([Latch(SP, sp.value)]);
      if !status.Continue? { return; }
      var ar := Calculate(PassthroughParams(GetReg(SP)));
      var cell := dataPath.ReadMemory(GetReg(AR));
      status := DoInOneTick([Latch(AR, ar.value), Latch(DR, cell.value)]);
    }

    /** decodeAndExecuteAddresslessInstruction: HLT and IRET stop the machine with a ControlUnitError. */
    method DecodeAndExecuteAddresslessInstruction(instruction: Isa.MachineCodeTerm) returns (status: Status)
      requires Valid()
      modifies this`tickCounter, dataPath, dataPath.memory, dataPath.alu
      ensures Valid()
      ensures Step(Snapshot(), status) == AddresslessSpec(old(Snapshot()), instruction.opcode)
      ensures dataPath.alu.bitFlags == old(dataPath.alu.bitFlags)
    {
      match instruction.opcode
      case Hlt =>
        status := DoInOneTick([]);
        if status.Continue? {
          status := Stopped("Halt");
        }
      case Iret =>
        status := DoInOneTick([]);
        if status.Continue? {
          status := Stopped("Interrupt return");
        }
      case Push =>
        status := ExecutePush();
      case Pop =>
        status := ExecutePop();
      case Ei =>
        var ps := Calculate(EiParams(GetReg(PS)));
        status := DoInOneTick([Latch(PS, ps.value)]);
      case Di =>
        var ps := Calculate(DiParams(GetReg(PS)));
        status := DoInOneTick([Latch(PS, ps.value)]);
      case Cla =>
        var ac := Calculate(ToAluOpParams(GetReg(AC), GetReg(AC), Isa.Cla));
        status := DoInOneTick([Latch(AC, ac.value)]);
      case Nop =>
        status := DoInOneTick([]);
      case _ =>
        status := ExecuteAluAddressless(instruction.opcode);
    }

    /** The default case of decodeAndExecuteAddresslessInstruction: AC op AC through the ALU into AC. */
    method ExecuteAluAddressless(opcode: Isa.Opcode) returns (status: Status)
      requires Valid()
      modifies this`tickCounter, dataPath, dataPath.memory, dataPath.alu
      ensures Valid()
      ensures Step(Snapshot(), status) == AluAddresslessSpec(old(Snapshot()), opcode)
      ensures dataPath.alu.bitFlags == old(dataPath.alu.bitFlags)
    {
      var ac := Calculate(ToAluOpParams(GetReg(AC), GetReg(AC), opcode));
      if ac.Err? {
        return Panicked(ac.error);
      }
      status := DoInOneTick([Latch(AC, ac.value)]);
    }

    /** decodeAndExecuteBranchInstruction: AR -> IP when the condition on the decoded flags holds. */
    method DecodeAndExecuteBranchInstruction(instruction: Isa.MachineCodeTerm) returns (status: Status)
      requires Valid()
      modifies this`tickCounter, dataPath, dataPath.memory, dataPath.alu
      ensures Valid()
      ensures Step(Snapshot(), status) == BranchSpec(old(Snapshot()), instruction.opcode)
      ensures dataPath.alu.bitFlags == old(dataPath.alu.bitFlags)
    {
      var flags := dataPath.GetFlags();
      if BranchTaken(instruction.opcode, flags) {
        var ip := Calculate(PassthroughParams(GetReg(AR)));
        status := DoInOneTick([Latch(IP, ip.value)]);
      } else {
        status := Continue;
      }
    }

    /** DecodeAndExecuteInstruction: the instruction at index IP, its fetch, and its class's execute phase. */
    method DecodeAndExecuteInstruction() returns (status: Status)
      requires Valid()
      modifies this`tickCounter, dataPath, dataPath.memory, dataPath.alu
      ensures Valid()
      ensures Step(Snapshot(), status) == DecodeSpec(old(Snapshot()), program.instructions)
      ensures dataPath.alu.bitFlags == old(dataPath.alu.bitFlags)
    {
      var ip := GetReg(IP);
      if !(0 <= ip < |program.instructions|) {
        return Panicked("index out of range");
      }
      var instruction := program.instructions[ip];
      status := InstructionFetch();
      if !status.Continue? { return; }
      match Isa.TypeOf(instruction.opcode)
      case AddressType =>
        status := DecodeAndExecuteAddressInstruction(instruction);
      case AddresslessType =>
        status := DecodeAndExecuteAddresslessInstruction(instruction);
      case BranchType =>
        status := DecodeAndExecuteBranchInstruction(instruction);
      case IoType =>
    }

    /** pushOnStack: SP - 1 -> SP with SP -> AR; reg -> DR; DR -> mem[AR]. */
    method PushOnStack(reg: Register) returns (status: Status)
      requires Valid()
      modifies this`tickCounter, dataPath, dataPath.memory, dataPath.alu
      ensures Valid()
      ensures Step(Snapshot(), status) == PushOnStackSpec(old(Snapshot()), reg)
      ensures dataPath.alu.bitFlags == old(dataPath.alu.bitFlags)
    {
      var sp := Calculate(DecrementParams(GetReg(SP)));
      var ar := Calculate(PassthroughParams(GetReg(SP)));
      status := DoInOneTick([Latch(SP, sp.value), Latch(AR, ar.value)]);
      if !status.Continue? { return; }
      var dr := Calculate(PassthroughParams(GetReg(reg)));
      status := DoInOneTick([Latch(DR, dr.value)]);
      if !status.Continue? { return; }
      status := DoInOneTick([WriteMem]);
    }

    /** popFromStack: SP + 1 -> SP with SP -> AR; mem[AR] -> DR; DR -> target. */
    method PopFromStack(target: Register) returns (status: Status)
      requires Valid()
      modifies this`tickCounter, dataPath, dataPath.memory, dataPath.alu
      ensures Valid()
      ensures Step(Snapshot(), status) == PopFromStackSpec(old(Snapshot()), target)
      ensures dataPath.alu.bitFlags == old(dataPath.alu.bitFlags)
    {
      var sp := Calculate(IncrementParams(GetReg(SP)));
      var ar := Calculate(PassthroughParams(GetReg(SP)));
      status := DoInOneTick([Latch(SP, sp.value), Latch(AR, ar.value)]);
      if !status.Continue? { return; }
      var cell := dataPath.ReadMemory(GetReg(AR));
      status := DoInOneTick([Latch(DR, cell.value)]);
      if !status.Continue? { return; }
      var v := Calculate(PassthroughParams(GetReg(DR)));
      status := DoInOneTick([Latch(target, v.value)]);
    }

    /** presetInstructionCounter: the value goes to IP and to the instruction counter. */
    method PresetInstructionCounter(value: int)
      modifies this`instructionCounter, dataPath
      ensures dataPath.registers == old(dataPath.registers)[IP := value]
      ensures instructionCounter == value
    {
      dataPath.SigLatchRegister(IP, value);
      instructionCounter := value;
    }

    /** One iteration of RunInstructionCycle's loop: the instruction at IP, then the next counter value. */
    method RunNext() returns (status: Status)
      requires Valid() && instructionCounter < |program.instructions|
      modifies this`tickCounter, this`instructionCounter, dataPath, dataPath.memory, dataPath.alu
      ensures Valid()
      ensures dataPath.alu.bitFlags == old(dataPath.alu.bitFlags)
      ensures status.Continue? ==> instructionCounter == old(instructionCounter) + 1
      ensures Resumes(old(Snapshot()), Snapshot(), status, program.instructions, old(instructionCounter))
    {
      status := ExecuteNext();
      if status.Continue? {
        // PS never reads as requesting an interrupt, so processInterrupt is never entered.
        assert !dataPath.IsInterruptRequired();
        instructionCounter := instructionCounter + 1;
      }
    }

    /** The instruction at IP, as the first step of the run from the current counter. */
    method ExecuteNext() returns (status: Status)
      requires Valid() && instructionCounter < |program.instructions|
      modifies this`tickCounter, dataPath, dataPath.memory, dataPath.alu
      ensures Valid()
      ensures dataPath.alu.bitFlags == old(dataPath.alu.bitFlags)
      ensures Resumes(old(Snapshot()), Snapshot(), status, program.instructions, instructionCounter)
    {
      ghost var before := Snapshot();
      ghost var ic := instructionCounter;
      status := DecodeAndExecuteInstruction();
      ghost var after := Snapshot();
      RunFromDecoded(before, after, status, program.instructions, ic);
    }

    /**
     * The loop of RunInstructionCycle: one instruction per iteration until the
     * instruction counter passes the end of the program or a phase ends with a
     * ControlUnitError or a panic.
     */
    method RunLoop() returns (status: Status)
      requires Valid()
      modifies this`tickCounter, this`instructionCounter, dataPath, dataPath.memory, dataPath.alu
      ensures Valid()
      ensures Step(Snapshot(), status) == RunFrom(old(Snapshot()), program.instructions, old(instructionCounter))
      ensures status.Continue? ==>
        instructionCounter == if old(instructionCounter) < |program.instructions| then |program.instructions| else old(instructionCounter)
      ensures dataPath.alu.bitFlags == old(dataPath.alu.bitFlags)
    {
      ghost var goal := RunFrom(Snapshot(), program.instructions, instructionCounter);
      while instructionCounter < |program.instructions|
        invariant Valid()
        invariant goal == RunFrom(Snapshot(), program.instructions, instructionCounter)
        invariant instructionCounter == old(instructionCounter)
          || old(instructionCounter) < instructionCounter <= |program.instructions|
        invariant dataPath.alu.bitFlags == old(dataPath.alu.bitFlags)
        decreases |program.instructions| - instructionCounter
      {
        status := RunNext();
        if !status.Continue? { return; }
      }
      RunFromEnd(Snapshot(), program.instructions, instructionCounter);
      status := Continue;
    }

    /** RunInstructionCycle: IP and the instruction counter are preset to the start address, then the loop runs. */
    method RunInstructionCycle() returns (status: Status)
      requires Valid()
      modifies this`tickCounter, this`instructionCounter, dataPath, dataPath.memory, dataPath.alu
      ensures Valid()
      ensures Step(Snapshot(), status) == RunSpec(old(Snapshot()), program)
      ensures status.Continue? ==>
        instructionCounter == if program.startAddress < |program.instructions| then |program.instructions| else program.startAddress
      ensures dataPath.alu.bitFlags == old(dataPath.alu.bitFlags)
    {
      PresetInstructionCounter(program.startAddress);
      assert Snapshot() == old(Snapshot()).(regs := old(Snapshot()).regs[IP := program.startAddress]);
      status := RunLoop();
    }
  }
}
