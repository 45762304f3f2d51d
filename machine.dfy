/**
 * RunSimulation of pkg/machine/machine.go: a fresh datapath and control unit,
 * the instruction cycle, and the classification of how it ended. A run must
 * end with a ControlUnitError (HLT or IRET) to count as a success.
 */
module Machine {
  import Isa
  import opened Datapath
  import opened CycleSpec
  import CycleProperties
  import Control

  /** The error RunSimulation returns: none, a plain error message, or a Go panic that escapes it. */
  datatype Outcome = Finished | Failed(message: string) | Crashed(reason: string)

  /** The error classification at the end of RunSimulation. */
  function Classify(status: Status): (o: Outcome)
    ensures o.Finished? <==> status.Stopped?
    ensures o.Failed? <==> status.Continue?
    ensures o.Failed? ==> o.message == "simulation should finish with HLT"
    ensures o.Crashed? <==> status.Panicked?
    ensures o.Crashed? ==> o.reason == status.reason
  {
    match status
    case Continue => Failed("simulation should finish with HLT")
    case Stopped(_) => Finished
    case Panicked(reason) => Crashed(reason)
  }

  /** The state NewDataPath builds and the clock starts from: zero registers, zero memory, tick 0. */
  ghost function InitialCpu(): (c: Cpu)
    ensures WellSized(c) && c.ticks == 0
  {
    Cpu(map[AC := 0, IP := 0, CR := 0, PS := 0, SP := 0, DR := 0, AR := 0],
        seq(Isa.AddrMaxValue + 1, _ => 0), 0)
  }

  /** What RunSimulation returns for a program. */
  ghost function SimulationSpec(program: Isa.Program): Outcome
  {
    Classify(RunSpec(InitialCpu().(regs := InitialCpu().regs[IP := program.startAddress]), program).status)
  }

  method RunSimulation(program: Isa.Program) returns (outcome: Outcome)
    ensures outcome == SimulationSpec(program)
  {
    var dataPath := new DataPath();
    var controlUnit := new Control.ControlUnit(program, dataPath);
    forall r: Register ensures r in InitialCpu().regs {
      match r
      case AC => case IP => case CR => case PS => case SP => case DR => case AR =>
    }
    assert dataPath.registers == InitialCpu().regs;
    assert dataPath.memory[..] == InitialCpu().mem;
    controlUnit.PresetInstructionCounter(program.startAddress);
    var status := controlUnit.RunInstructionCycle();
    outcome := Classify(status);
  }

  /** A successful simulation is one that executed HLT or IRET. */
  lemma FinishedMeansHalted(program: Isa.Program)
    requires SimulationSpec(program).Finished?
    ensures var c := InitialCpu().(regs := InitialCpu().regs[IP := program.startAddress]);
      RunSpec(c, program).status.message in {"Halt", "Interrupt return"}
  {
    var c := InitialCpu().(regs := InitialCpu().regs[IP := program.startAddress]);
    var c1 := c.(regs := c.regs[IP := program.startAddress]);
    if program.startAddress <= |program.instructions| {
      CycleProperties.RunOutcome(c1, program.instructions, program.startAddress);
    }
  }

  /** A start address at or past the end of the program runs nothing and is reported as an error. */
  lemma StartPastEndFails(program: Isa.Program)
    requires program.startAddress >= |program.instructions|
    ensures SimulationSpec(program) == Failed("simulation should finish with HLT")
  {
  }

  /** A program whose instruction at the start address is HLT finishes: fetch, then the halting tick. */
  lemma HaltFirstFinishes(program: Isa.Program)
    requires 0 <= program.startAddress < |program.instructions|
    requires program.startAddress <= Isa.AddrMaxValue
    requires program.instructions[program.startAddress].opcode == Isa.Hlt
    ensures SimulationSpec(program) == Finished
  {
    var c := InitialCpu().(regs := InitialCpu().regs[IP := program.startAddress]);
    var c1 := c.(regs := c.regs[IP := program.startAddress]);
    CycleProperties.FetchEffect(c1);
    CycleProperties.HaltAndIret(FetchSpec(c1).cpu);
    RunFromStop(c1, program.instructions, program.startAddress);
  }
}
