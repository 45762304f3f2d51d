/**
 * What the instruction cycle of pkg/machine/controlunit.go does, register by
 * register, proved about the functions of CycleSpec.
 */
module CycleProperties {
  import opened Wrappers
  import Isa
  import Bits
  import Alu
  import opened Datapath
  import opened CycleSpec

  /** All seven registers are present in the map, as after NewDataPath. */
  predicate AllRegs(c: Cpu)
  {
    forall r: Register :: r in c.regs
  }

  predicate ArInRange(c: Cpu)
  {
    0 <= Reg(c, AR) < |c.mem|
  }

  /** A tick with one latch: the latch, then the trace read of mem[AR], then the tick. */
  lemma TickOne(c: Cpu, r: Register, v: int)
    ensures var c' := c.(regs := c.regs[r := v]);
      Tick(c, [Latch(r, v)]) ==
        if 0 <= Reg(c', AR) < |c.mem| then Step(c'.(ticks := c.ticks + 1), Continue)
        else Step(c', Panicked("index out of range"))
  {
    assert [Latch(r, v)][..0] == [];
    assert ApplyOps(c, []) == Step(c, Continue);
    assert ApplyOps(c, [Latch(r, v)]) == Step(c.(regs := c.regs[r := v]), Continue);
  }

  /** A tick with two latches: both take effect, the second one last. */
  lemma TickTwo(c: Cpu, r1: Register, v1: int, r2: Register, v2: int)
    ensures var c' := c.(regs := c.regs[r1 := v1][r2 := v2]);
      Tick(c, [Latch(r1, v1), Latch(r2, v2)]) ==
        if 0 <= Reg(c', AR) < |c.mem| then Step(c'.(ticks := c.ticks + 1), Continue)
        else Step(c', Panicked("index out of range"))
  {
    assert [Latch(r1, v1), Latch(r2, v2)][..1] == [Latch(r1, v1)];
    assert [Latch(r1, v1)][..0] == [];
    assert ApplyOps(c, []) == Step(c, Continue);
    assert ApplyOps(c, [Latch(r1, v1)]) == Step(c.(regs := c.regs[r1 := v1]), Continue);
    assert ApplyOps(c, [Latch(r1, v1), Latch(r2, v2)]) == Step(c.(regs := c.regs[r1 := v1][r2 := v2]), Continue);
  }

  /** A tick that does nothing but trace and count (the HLT, IRET and NOP ticks). */
  lemma TickNone(c: Cpu)
    ensures Tick(c, []) ==
      if ArInRange(c) then Step(c.(ticks := c.ticks + 1), Continue) else Step(c, Panicked("index out of range"))
  {
  }

  /** A tick that writes DR to mem[AR]. */
  lemma TickWrite(c: Cpu)
    ensures Tick(c, [WriteMem]) ==
      if ArInRange(c) then Step(c.(mem := c.mem[Reg(c, AR) := Reg(c, DR)], ticks := c.ticks + 1), Continue)
      else Step(c, Panicked("index out of range"))
  {
    assert [WriteMem][..0] == [];
    assert ApplyOps(c, []) == Step(c, Continue);
    assert ApplyOps(c, [WriteMem]) == ApplyOp(c, WriteMem);
  }

  /** A tick with a latch and then the memory write; the latch does not touch AR or DR. */
  lemma TickLatchWrite(c: Cpu, r: Register, v: int)
    requires r != AR && r != DR
    ensures var c' := c.(regs := c.regs[r := v]);
      Tick(c, [Latch(r, v), WriteMem]) ==
        if ArInRange(c) then Step(c'.(mem := c.mem[Reg(c, AR) := Reg(c, DR)], ticks := c.ticks + 1), Continue)
        else Step(c', Panicked("index out of range"))
  {
    var c' := c.(regs := c.regs[r := v]);
    assert Reg(c', AR) == Reg(c, AR) && Reg(c', DR) == Reg(c, DR);
    assert [Latch(r, v), WriteMem][..1] == [Latch(r, v)];
    assert [Latch(r, v)][..0] == [];
    assert ApplyOps(c, []) == Step(c, Continue);
    assert ApplyOps(c, [Latch(r, v)]) == Step(c', Continue);
    assert ApplyOps(c, [Latch(r, v), WriteMem]) == ApplyOp(c', WriteMem);
  }

  /**
   * Instruction fetch takes three ticks: AR := IP, then IP := IP + 1 with
   * DR := mem[IP], then CR := DR. It panics exactly when IP is not an address.
   */
  lemma FetchEffect(c: Cpu)
    ensures var s := FetchSpec(c); var ip := Reg(c, IP);
      && (s.status.Continue? <==> 0 <= ip < |c.mem|)
      && (!s.status.Continue? ==> s.status == Panicked("index out of range"))
      && (s.status.Continue? ==>
            && s.cpu.regs == c.regs[AR := ip][IP := ip + 1][DR := c.mem[ip]][CR := c.mem[ip]]
            && s.cpu.mem == c.mem
            && s.cpu.ticks == c.ticks + 3)
  {
    var ip := Reg(c, IP);
    HelperParamValues(Reg(c, IP));
    TickOne(c, AR, ip);
    var s1 := Tick(c, [Latch(AR, Pass(c, IP))]);
    if s1.status.Continue? {
      var c1 := s1.cpu;
      HelperParamValues(Reg(c1, IP));
      TickTwo(c1, IP, ip + 1, DR, c.mem[ip]);
      var c2 := Tick(c1, [Latch(IP, Inc(c1, IP)), Latch(DR, c1.mem[Reg(c1, AR)])]).cpu;
      HelperParamValues(Reg(c2, DR));
      TickOne(c2, CR, c.mem[ip]);
    }
  }

  /** Operand fetch: AR := DR, then DR := mem[AR]; it panics when DR is not an address. */
  lemma OperandFetchEffect(c: Cpu)
    ensures var s := OperandFetchSpec(c); var a := Reg(c, DR);
      && (s.status.Continue? <==> 0 <= a < |c.mem|)
      && (!s.status.Continue? ==> s.status == Panicked("index out of range"))
      && (s.status.Continue? ==>
            s.cpu == c.(regs := c.regs[AR := a][DR := c.mem[a]], ticks := c.ticks + 2))
  {
    var a := Reg(c, DR);
    HelperParamValues(Reg(c, DR));
    TickOne(c, AR, a);
    var s1 := Tick(c, [Latch(AR, Pass(c, DR))]);
    if s1.status.Continue? {
      TickOne(s1.cpu, DR, c.mem[a]);
    }
  }

  /** LOAD: after the operand fetch, AC := DR = mem[operand address]. */
  lemma LoadEffect(c: Cpu)
    ensures var s := AddressSpec(c, Isa.Load); var a := Reg(c, DR);
      && (s.status.Continue? <==> 0 <= a < |c.mem|)
      && (s.status.Continue? ==>
            s.cpu == c.(regs := c.regs[AR := a][DR := c.mem[a]][AC := c.mem[a]], ticks := c.ticks + 3))
  {
    OperandFetchEffect(c);
    var s := OperandFetchSpec(c);
    if s.status.Continue? {
      HelperParamValues(Reg(s.cpu, DR));
      TickOne(s.cpu, AC, c.mem[Reg(c, DR)]);
    }
  }

  /** STORE: after the operand fetch, DR := AC and mem[AR] := AC; AC is unchanged. */
  lemma StoreEffect(c: Cpu)
    ensures var s := AddressSpec(c, Isa.Store); var a := Reg(c, DR);
      && (s.status.Continue? <==> 0 <= a < |c.mem|)
      && (s.status.Continue? ==>
            && s.cpu.regs == c.regs[AR := a][DR := Reg(c, AC)]
            && s.cpu.mem == c.mem[a := Reg(c, AC)]
            && s.cpu.ticks == c.ticks + 4)
  {
    OperandFetchEffect(c);
    var s := OperandFetchSpec(c);
    if s.status.Continue? {
      StoreTicks(s.cpu);
    }
  }

  /** ST's two execute ticks: DR := AC, then mem[AR] := DR; AR is in range after an operand fetch. */
  lemma StoreTicks(c: Cpu)
    requires ArInRange(c)
    ensures StoreSpec(c) == Step(c.(regs := c.regs[DR := Reg(c, AC)], mem := c.mem[Reg(c, AR) := Reg(c, AC)], ticks := c.ticks + 2), Continue)
  {
    HelperParamValues(Reg(c, AC));
    TickOne(c, DR, Reg(c, AC));
    var t := Tick(c, [Latch(DR, Pass(c, AC))]);
    TickWrite(t.cpu);
  }

  /**
   * Every other address-class opcode: AC := op(AC, mem[operand address]) through
   * the opcode table; an opcode missing from the table panics.
   */
  lemma ArithmeticEffect(c: Cpu, opcode: Isa.Opcode)
    requires Isa.TypeOf(opcode) == Isa.AddressType && opcode != Isa.Load && opcode != Isa.Store
    requires 0 <= Reg(c, DR) < |c.mem|
    ensures var s := AddressSpec(c, opcode); var a := Reg(c, DR);
      var out := Alu.BinaryOperation(Alu.OpcodeToAluOperation(opcode), Reg(c, AC), c.mem[a]);
      && (out.Err? ==> s.status == Panicked(out.error))
      && (out.Ok? ==> s.status.Continue?)
      && (out.Ok? ==> s.cpu == c.(regs := c.regs[AR := a][DR := c.mem[a]][AC := out.value], ticks := c.ticks + 3))
  {
    OperandFetchEffect(c);
    var c2 := OperandFetchSpec(c).cpu;
    var a := Reg(c, DR);
    assert Reg(c2, AC) == Reg(c, AC) && Reg(c2, DR) == c.mem[a];
    var out := Calc(ToAluOp(c2, AC, DR, opcode));
    if out.Ok? {
      TickOne(c2, AC, out.value);
    }
  }

  /** ADD, SUB, CMP and MOD reach the ALU; MUL, AND and OR have no table entry and panic. */
  lemma ArithmeticTable(c: Cpu, opcode: Isa.Opcode)
    requires opcode in {Isa.Mul, Isa.And, Isa.Or}
    requires 0 <= Reg(c, DR) < |c.mem|
    ensures AddressSpec(c, opcode).status == Panicked("unknown operation")
  {
    ArithmeticEffect(c, opcode);
  }

  /** HLT and IRET spend one tick and stop the cycle with "Halt" or "Interrupt return". */
  lemma HaltAndIret(c: Cpu)
    requires ArInRange(c)
    ensures AddresslessSpec(c, Isa.Hlt) == Step(c.(ticks := c.ticks + 1), Stopped("Halt"))
    ensures AddresslessSpec(c, Isa.Iret) == Step(c.(ticks := c.ticks + 1), Stopped("Interrupt return"))
  {
    TickNone(c);
  }

  /** NOP spends one tick and changes nothing else. */
  lemma NopEffect(c: Cpu)
    requires ArInRange(c)
    ensures AddresslessSpec(c, Isa.Nop) == Step(c.(ticks := c.ticks + 1), Continue)
  {
    TickNone(c);
  }

  /** CLA computes takeRight(AC, AC): AC keeps its value and the state is unchanged but for the tick. */
  lemma ClaEffect(c: Cpu)
    requires ArInRange(c) && AllRegs(c)
    ensures AddresslessSpec(c, Isa.Cla) == Step(c.(ticks := c.ticks + 1), Continue)
  {
    TickOne(c, AC, Reg(c, AC));
    assert c.regs[AC := Reg(c, AC)] == c.regs;
  }

  /** INC, DEC and the other addressless opcodes without a table entry panic in the ALU. */
  lemma UnmappedAddresslessPanics(c: Cpu, opcode: Isa.Opcode)
    requires opcode in {Isa.Inc, Isa.Dec}
    ensures AddresslessSpec(c, opcode) == Step(c, Panicked("unknown operation"))
  {
  }

  /** EI is one tick latching PS | (1 << 4) into PS. */
  lemma EiTick(c: Cpu)
    ensures AddresslessSpec(c, Isa.Ei) == Tick(c, [Latch(PS, Bits.Or(Reg(c, PS), EiMask))])
  {
    assert Calc(EiParams(Reg(c, PS))) == Ok(Bits.Or(Reg(c, PS), EiMask));
  }

  /** DI is one tick latching PS & ^(1 << 4) into PS. */
  lemma DiTick(c: Cpu)
    ensures AddresslessSpec(c, Isa.Di) == Tick(c, [Latch(PS, Bits.And(Reg(c, PS), Bits.Not(EiMask)))])
  {
    assert Calc(DiParams(Reg(c, PS))) == Ok(Bits.And(Reg(c, PS), Bits.Not(EiMask)));
  }

  /** EI sets bit 4 of PS; every other bit of PS and every other register is kept. */
  lemma EiEffect(c: Cpu, k: nat)
    requires ArInRange(c)
    ensures var s := AddresslessSpec(c, Isa.Ei);
      && s.status.Continue? && s.cpu.mem == c.mem && s.cpu.ticks == c.ticks + 1
      && (forall r :: r != PS ==> Reg(s.cpu, r) == Reg(c, r))
      && Bits.Bit(Reg(s.cpu, PS), k) == (k == 4 || Bits.Bit(Reg(c, PS), k))
  {
    var ps := Reg(c, PS);
    var v := Bits.Or(ps, EiMask);
    EiTick(c);
    TickOne(c, PS, v);
    Bits.OrBits(ps, EiMask, k);
    Bits.Pow2Bits(4, k);
  }

  /** DI clears bit 4 of PS; every other bit of PS and every other register is kept. */
  lemma DiEffect(c: Cpu, k: nat)
    requires ArInRange(c)
    ensures var s := AddresslessSpec(c, Isa.Di);
      && s.status.Continue? && s.cpu.mem == c.mem && s.cpu.ticks == c.ticks + 1
      && (forall r :: r != PS ==> Reg(s.cpu, r) == Reg(c, r))
      && Bits.Bit(Reg(s.cpu, PS), k) == (k != 4 && Bits.Bit(Reg(c, PS), k))
  {
    var ps := Reg(c, PS);
    var v := Bits.And(ps, Bits.Not(EiMask));
    DiTick(c);
    TickOne(c, PS, v);
    Bits.AndBits(ps, Bits.Not(EiMask), k);
    Bits.NotBits(EiMask, k);
    Bits.Pow2Bits(4, k);
  }

  /**
   * PUSH writes AC to mem[SP] and decrements SP, in three ticks; it panics
   * when SP is not an address.
   */
  lemma PushEffect(c: Cpu)
    requires ArInRange(c)
    ensures var s := PushSpec(c); var sp := Reg(c, SP);
      && (s.status.Continue? <==> 0 <= sp < |c.mem|)
      && (s.status.Continue? ==>
            && s.cpu.regs == c.regs[DR := Reg(c, AC)][AR := sp][SP := sp - 1]
            && s.cpu.mem == c.mem[sp := Reg(c, AC)]
            && s.cpu.ticks == c.ticks + 3)
  {
    var sp := Reg(c, SP);
    HelperParamValues(Reg(c, AC));
    TickOne(c, DR, Reg(c, AC));
    var c1 := Tick(c, [Latch(DR, Pass(c, AC))]).cpu;
    HelperParamValues(Reg(c1, SP));
    TickOne(c1, AR, sp);
    var s2 := Tick(c1, [Latch(AR, Pass(c1, SP))]);
    if s2.status.Continue? {
      var c2 := s2.cpu;
      HelperParamValues(Reg(c2, SP));
      TickLatchWrite(c2, SP, sp - 1);
    }
  }

  /**
   * POP increments SP and points AR at the new SP, but DR receives the cell
   * at the AR of before that tick and AC is never written.
   */
  lemma PopEffect(c: Cpu)
    requires ArInRange(c)
    ensures var s := PopSpec(c); var sp := Reg(c, SP);
      && (s.status.Continue? <==> 0 <= sp + 1 < |c.mem|)
      && (s.status.Continue? ==>
            && s.cpu.regs == c.regs[SP := sp + 1][AR := sp + 1][DR := c.mem[Reg(c, AR)]]
            && s.cpu.mem == c.mem
            && s.cpu.ticks == c.ticks + 2
            && Reg(s.cpu, AC) == Reg(c, AC))
  {
    var sp := Reg(c, SP);
    HelperParamValues(Reg(c, SP));
    TickOne(c, SP, sp + 1);
    var c1 := Tick(c, [Latch(SP, Inc(c, SP))]).cpu;
    HelperParamValues(Reg(c1, SP));
    TickTwo(c1, AR, sp + 1, DR, c.mem[Reg(c, AR)]);
  }

  /** PUSH then POP: SP is back where it was, and AC keeps the value it had, whatever was pushed. */
  lemma PushThenPop(c: Cpu)
    requires ArInRange(c) && 0 <= Reg(c, SP) < |c.mem|
    ensures PushSpec(c).status.Continue?
    ensures var p := PopSpec(PushSpec(c).cpu);
      && p.status.Continue?
      && Reg(p.cpu, SP) == Reg(c, SP)
      && Reg(p.cpu, AC) == Reg(c, AC)
      && p.cpu.mem[Reg(c, SP)] == Reg(c, AC)
  {
    PushEffect(c);
    PopEffect(PushSpec(c).cpu);
  }

  /** pushOnStack writes the register to mem[SP] and decrements SP, in three ticks. */
  lemma PushOnStackEffect(c: Cpu, reg: Register)
    requires reg != SP && reg != AR
    requires 0 <= Reg(c, SP) < |c.mem|
    ensures var s := PushOnStackSpec(c, reg); var sp := Reg(c, SP);
      && s.status.Continue?
      && s.cpu.regs == c.regs[SP := sp - 1][AR := sp][DR := Reg(c, reg)]
      && s.cpu.mem == c.mem[sp := Reg(c, reg)]
      && s.cpu.ticks == c.ticks + 3
  {
    var sp := Reg(c, SP);
    HelperParamValues(Reg(c, SP));
    TickTwo(c, SP, sp - 1, AR, sp);
    var a1 := Tick(c, [Latch(SP, Dec(c, SP)), Latch(AR, Pass(c, SP))]).cpu;
    HelperParamValues(Reg(a1, reg));
    TickOne(a1, DR, Reg(c, reg));
    var a2 := Tick(a1, [Latch(DR, Pass(a1, reg))]).cpu;
    TickWrite(a2);
  }

  /**
   * popFromStack increments SP, but AR receives the SP of before that tick,
   * so the target register receives mem[old SP], in three ticks.
   */
  lemma PopFromStackEffect(c: Cpu, target: Register)
    requires target != AR
    requires 0 <= Reg(c, SP) < |c.mem|
    ensures var s := PopFromStackSpec(c, target); var sp := Reg(c, SP);
      && s.status.Continue?
      && s.cpu.regs == c.regs[SP := sp + 1][AR := sp][DR := c.mem[sp]][target := c.mem[sp]]
      && s.cpu.mem == c.mem
      && s.cpu.ticks == c.ticks + 3
  {
    var sp := Reg(c, SP);
    HelperParamValues(Reg(c, SP));
    TickTwo(c, SP, sp + 1, AR, sp);
    var s1 := Tick(c, [Latch(SP, Inc(c, SP)), Latch(AR, Pass(c, SP))]);
    assert s1.status.Continue?;
    var b1 := s1.cpu;
    assert b1.regs == c.regs[SP := sp + 1][AR := sp] && b1.mem == c.mem;
    TickOne(b1, DR, c.mem[sp]);
    var s2 := Tick(b1, [Latch(DR, b1.mem[Reg(b1, AR)])]);
    assert s2.status.Continue?;
    var b2 := s2.cpu;
    assert b2.regs == c.regs[SP := sp + 1][AR := sp][DR := c.mem[sp]];
    HelperParamValues(Reg(b2, DR));
    TickOne(b2, target, c.mem[sp]);
    assert PopFromStackSpec(c, target) == Tick(b2, [Latch(target, Pass(b2, DR))]);
  }

  /**
   * pushOnStack then popFromStack restores SP, but the value read back is
   * the cell one below the pushed one: mem[SP - 1], not the pushed register.
   */
  lemma StackHelpersBalance(c: Cpu, reg: Register, target: Register)
    requires reg != SP && reg != AR && target != SP && target != AR
    requires 1 <= Reg(c, SP) < |c.mem|
    ensures PushOnStackSpec(c, reg).status.Continue?
    ensures var p := PopFromStackSpec(PushOnStackSpec(c, reg).cpu, target);
      && p.status.Continue?
      && Reg(p.cpu, SP) == Reg(c, SP)
      && Reg(p.cpu, target) == c.mem[Reg(c, SP) - 1]
      && p.cpu.ticks == c.ticks + 6
  {
    PushOnStackEffect(c, reg);
    var c1 := PushOnStackSpec(c, reg).cpu;
    PopFromStackEffect(c1, target);
  }

  /** The flags decoded from PS: JNC and JNNEG always jump, every other branch never. */
  lemma BranchTable(opcode: Isa.Opcode, ps: int)
    ensures BranchTaken(opcode, FlagsOf(ps)) <==> opcode == Isa.Jnc || opcode == Isa.Jnneg
  {
  }

  /**
   * A branch jumps iff its condition holds on the flags in PS: IP := AR (after
   * the fetch, the address the instruction came from); otherwise nothing
   * happens and no tick is spent.
   */
  lemma BranchEffect(c: Cpu, opcode: Isa.Opcode)
    requires ArInRange(c)
    ensures var s := BranchSpec(c, opcode);
      && s.status.Continue?
      && (BranchTaken(opcode, FlagsOf(Reg(c, PS))) ==>
            s.cpu == c.(regs := c.regs[IP := Reg(c, AR)], ticks := c.ticks + 1))
      && (!BranchTaken(opcode, FlagsOf(Reg(c, PS))) ==> s.cpu == c)
  {
    HelperParamValues(Reg(c, AR));
    TickOne(c, IP, Reg(c, AR));
  }

  /** An IO-class instruction has no execute phase: it costs the three fetch ticks and nothing else. */
  lemma IoInstruction(c: Cpu, instructions: seq<Isa.MachineCodeTerm>)
    requires 0 <= Reg(c, IP) < |instructions|
    requires Isa.TypeOf(instructions[Reg(c, IP)].opcode) == Isa.IoType
    ensures DecodeSpec(c, instructions) == FetchSpec(c)
  {
  }

  /** The instruction is looked up in the program at IP; an IP outside it panics. */
  lemma DecodeOutsideProgram(c: Cpu, instructions: seq<Isa.MachineCodeTerm>)
    requires !(0 <= Reg(c, IP) < |instructions|)
    ensures DecodeSpec(c, instructions) == Step(c, Panicked("index out of range"))
  {
  }

  /** After a fetch that ends normally, the class of the opcode at IP picks the execute phase. */
  lemma DecodeAfterFetch(c: Cpu, instructions: seq<Isa.MachineCodeTerm>)
    requires 0 <= Reg(c, IP) < |instructions| && FetchSpec(c).status.Continue?
    ensures var op := instructions[Reg(c, IP)].opcode; var f := FetchSpec(c).cpu;
      DecodeSpec(c, instructions) ==
        match Isa.TypeOf(op)
        case AddressType => AddressSpec(f, op)
        case AddresslessType => AddresslessSpec(f, op)
        case BranchType => BranchSpec(f, op)
        case IoType => FetchSpec(c)
  {
  }

  /**
   * A whole PUSH instruction: six ticks, AC written to the cell SP named, SP
   * decremented, IP advanced.
   */
  lemma PushInstruction(c: Cpu, instructions: seq<Isa.MachineCodeTerm>)
    requires 0 <= Reg(c, IP) < |instructions| && instructions[Reg(c, IP)].opcode == Isa.Push
    requires 0 <= Reg(c, IP) < |c.mem| && 0 <= Reg(c, SP) < |c.mem|
    ensures var s := DecodeSpec(c, instructions); var sp := Reg(c, SP);
      && s.status.Continue?
      && s.cpu.mem == c.mem[sp := Reg(c, AC)]
      && Reg(s.cpu, SP) == sp - 1
      && Reg(s.cpu, AC) == Reg(c, AC)
      && Reg(s.cpu, IP) == Reg(c, IP) + 1
      && s.cpu.ticks == c.ticks + 6
  {
    FetchEffect(c);
    DecodeAfterFetch(c, instructions);
    var f := FetchSpec(c).cpu;
    assert DecodeSpec(c, instructions) == PushSpec(f);
    PushAfterFetch(c, f);
  }

  /** PUSH's execute phase, from the state the fetch left. */
  lemma PushAfterFetch(c: Cpu, f: Cpu)
    requires 0 <= Reg(c, IP) < |c.mem| && 0 <= Reg(c, SP) < |c.mem|
    requires var ip := Reg(c, IP);
      && f.regs == c.regs[AR := ip][IP := ip + 1][DR := c.mem[ip]][CR := c.mem[ip]]
      && f.mem == c.mem && f.ticks == c.ticks + 3
    ensures var s := PushSpec(f); var sp := Reg(c, SP);
      && s.status.Continue?
      && s.cpu.mem == c.mem[sp := Reg(c, AC)]
      && Reg(s.cpu, SP) == sp - 1
      && Reg(s.cpu, AC) == Reg(c, AC)
      && Reg(s.cpu, IP) == Reg(c, IP) + 1
      && s.cpu.ticks == c.ticks + 6
  {
    PushEffect(f);
  }

  /**
   * A whole POP instruction: five ticks, SP incremented, AC untouched, IP
   * advanced; DR holds the instruction's own cell mem[IP], not the stack top.
   */
  lemma PopInstruction(c: Cpu, instructions: seq<Isa.MachineCodeTerm>)
    requires 0 <= Reg(c, IP) < |instructions| && instructions[Reg(c, IP)].opcode == Isa.Pop
    requires 0 <= Reg(c, IP) < |c.mem| && 0 <= Reg(c, SP) + 1 < |c.mem|
    ensures var s := DecodeSpec(c, instructions);
      && s.status.Continue?
      && s.cpu.mem == c.mem
      && Reg(s.cpu, SP) == Reg(c, SP) + 1
      && Reg(s.cpu, AC) == Reg(c, AC)
      && Reg(s.cpu, DR) == c.mem[Reg(c, IP)]
      && Reg(s.cpu, IP) == Reg(c, IP) + 1
      && s.cpu.ticks == c.ticks + 5
  {
    FetchEffect(c);
    DecodeAfterFetch(c, instructions);
    var f := FetchSpec(c).cpu;
    assert DecodeSpec(c, instructions) == PopSpec(f);
    PopAfterFetch(c, f);
  }

  /**
   * A PUSH instruction followed by a POP instruction, each with its own fetch:
   * SP and AC are back where they were and IP has moved past both, in eleven
   * ticks. The pushed AC stays in the cell SP named, and DR ends up holding
   * the POP instruction's own cell, not the pushed value.
   */
  lemma PushPopInstructions(c: Cpu, instructions: seq<Isa.MachineCodeTerm>)
    requires 0 <= Reg(c, IP) && Reg(c, IP) + 1 < |instructions|
    requires instructions[Reg(c, IP)].opcode == Isa.Push && instructions[Reg(c, IP) + 1].opcode == Isa.Pop
    requires Reg(c, IP) + 1 < |c.mem| && 0 <= Reg(c, SP) < |c.mem|
    ensures var p := DecodeSpec(c, instructions);
      && p.status.Continue?
      && var q := DecodeSpec(p.cpu, instructions); var sp := Reg(c, SP);
      && q.status.Continue?
      && Reg(q.cpu, SP) == sp
      && Reg(q.cpu, AC) == Reg(c, AC)
      && Reg(q.cpu, IP) == Reg(c, IP) + 2
      && q.cpu.mem == c.mem[sp := Reg(c, AC)]
      && Reg(q.cpu, DR) == c.mem[sp := Reg(c, AC)][Reg(c, IP) + 1]
      && q.cpu.ticks == c.ticks + 11
  {
    PushInstruction(c, instructions);
    var p := DecodeSpec(c, instructions).cpu;
    PopInstruction(p, instructions);
  }

  /** POP's execute phase, from the state the fetch left. */
  lemma PopAfterFetch(c: Cpu, f: Cpu)
    requires 0 <= Reg(c, IP) < |c.mem| && 0 <= Reg(c, SP) + 1 < |c.mem|
    requires var ip := Reg(c, IP);
      && f.regs == c.regs[AR := ip][IP := ip + 1][DR := c.mem[ip]][CR := c.mem[ip]]
      && f.mem == c.mem && f.ticks == c.ticks + 3
    ensures var s := PopSpec(f);
      && s.status.Continue?
      && s.cpu.mem == c.mem
      && Reg(s.cpu, SP) == Reg(c, SP) + 1
      && Reg(s.cpu, AC) == Reg(c, AC)
      && Reg(s.cpu, DR) == c.mem[Reg(c, IP)]
      && Reg(s.cpu, IP) == Reg(c, IP) + 1
      && s.cpu.ticks == c.ticks + 5
  {
    PopEffect(f);
  }

  /** Only HLT and IRET stop an instruction with a ControlUnitError. */
  lemma DecodeStopped(c: Cpu, instructions: seq<Isa.MachineCodeTerm>)
    requires DecodeSpec(c, instructions).status.Stopped?
    ensures 0 <= Reg(c, IP) < |instructions|
    ensures var op := instructions[Reg(c, IP)].opcode;
      && (op == Isa.Hlt || op == Isa.Iret)
      && DecodeSpec(c, instructions).status.message == (if op == Isa.Hlt then "Halt" else "Interrupt return")
  {
    if !(0 <= Reg(c, IP) < |instructions|) {
      assert false;
    }
    var op := instructions[Reg(c, IP)].opcode;
    var s := FetchSpec(c);
    if !s.status.Continue? {
      assert false;
    }
    match Isa.TypeOf(op)
    case AddressType =>
      assert false;
    case AddresslessType =>
    case BranchType =>
      assert false;
    case IoType =>
      assert false;
  }

  /** An address-class execute phase that ends normally does not lose ticks or memory cells. */
  lemma AddressKeepsCounts(c: Cpu, opcode: Isa.Opcode)
    requires AddressSpec(c, opcode).status.Continue?
    ensures AddressSpec(c, opcode).cpu.ticks >= c.ticks
    ensures |AddressSpec(c, opcode).cpu.mem| == |c.mem|
  {
  }

  /** An addressless execute phase that ends normally does not lose ticks or memory cells. */
  lemma AddresslessKeepsCounts(c: Cpu, opcode: Isa.Opcode)
    requires AddresslessSpec(c, opcode).status.Continue?
    ensures AddresslessSpec(c, opcode).cpu.ticks >= c.ticks
    ensures |AddresslessSpec(c, opcode).cpu.mem| == |c.mem|
  {
  }

  /** An instruction that ends normally costs at least the three fetch ticks. */
  lemma DecodeTicks(c: Cpu, instructions: seq<Isa.MachineCodeTerm>)
    requires DecodeSpec(c, instructions).status.Continue?
    ensures DecodeSpec(c, instructions).cpu.ticks >= c.ticks + 3
    ensures |DecodeSpec(c, instructions).cpu.mem| == |c.mem|
  {
    if !(0 <= Reg(c, IP) < |instructions|) {
      assert false;
    }
    var op := instructions[Reg(c, IP)].opcode;
    var s := FetchSpec(c);
    FetchEffect(c);
    if !s.status.Continue? {
      assert false;
    }
    match Isa.TypeOf(op)
    case AddressType =>
      AddressKeepsCounts(s.cpu, op);
    case AddresslessType =>
      AddresslessKeepsCounts(s.cpu, op);
    case BranchType =>
    case IoType =>
  }

  /**
   * A run that ends with a ControlUnitError was stopped by HLT ("Halt") or
   * IRET ("Interrupt return"); a run that ends normally took at least three
   * ticks for every remaining instruction index.
   */
  lemma {:induction false} RunOutcome(c: Cpu, instructions: seq<Isa.MachineCodeTerm>, ic: int)
    requires ic <= |instructions|
    ensures var s := RunFrom(c, instructions, ic);
      && (s.status.Stopped? ==> s.status.message in {"Halt", "Interrupt return"})
      && (s.status.Continue? ==> s.cpu.ticks >= c.ticks + 3 * (|instructions| - ic))
    decreases |instructions| - ic
  {
    if ic < |instructions| {
      var s := DecodeSpec(c, instructions);
      RunFromDecoded(c, s.cpu, s.status, instructions, ic);
      if s.status.Stopped? {
        DecodeStopped(c, instructions);
      } else if s.status.Continue? {
        DecodeTicks(c, instructions);
        RunOutcome(s.cpu, instructions, ic + 1);
      }
    }
  }
}
