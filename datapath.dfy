/**
 * The datapath of the simulator (pkg/machine/datapath.go): a map of seven
 * registers, a memory of AddrMaxValue + 1 integer cells and the ALU. Its
 * signals each have a single effect; the control unit sequences them.
 */
module Datapath {
  import opened Wrappers
  import Isa
  import Bits
  import Alu

  datatype Register = AC | IP | CR | PS | SP | DR | AR

  /** A register's value in a register map; a missing key reads as 0, as in Go. */
  function RegOf(regs: map<Register, int>, r: Register): int
  {
    if r in regs then regs[r] else 0
  }

  /** The status flags as GetFlags decodes them from PS. */
  function FlagsOf(ps: int): (f: Alu.BitFlags)
    ensures f.zero == Bits.Bit(ps, 0)
    ensures !f.negative && !f.carry
  {
    Bits.AndOne(ps);
    Bits.AndEvenMask(ps, 2);
    Bits.AndEvenMask(ps, 4);
    Alu.BitFlags(
      zero := Bits.And(ps, 1) == 1,
      negative := Bits.And(ps, 2) == 1,
      carry := Bits.And(ps, 4) == 1)
  }

  /** The interrupt test of IsInterruptRequired: `PS & 0x8 == 1 && PS & 0x10 == 1`. */
  function InterruptRequired(ps: int): (r: bool)
    ensures !r
  {
    Bits.AndEvenMask(ps, 8);
    Bits.And(ps, 8) == 1 && Bits.And(ps, 16) == 1
  }

  /** Reading a memory cell; an address outside the slice panics. */
  function ReadCell(mem: seq<int>, address: int): (r: Result<int, string>)
    ensures r.Ok? <==> 0 <= address < |mem|
    ensures r.Ok? ==> r.value == mem[address]
  {
    if 0 <= address < |mem| then Ok(mem[address]) else Err("index out of range")
  }

  class DataPath {
    var registers: map<Register, int>
    const memory: array<int>
    const alu: Alu.Alu

    ghost predicate Valid()
      reads this
    {
      memory.Length == Isa.AddrMaxValue + 1
    }

    /** Every register starts at 0; memory holds AddrMaxValue + 1 zero cells. */
    constructor ()
      ensures Valid() && fresh(memory) && fresh(alu)
      ensures forall r :: r in registers && registers[r] == 0
      ensures forall i :: 0 <= i < memory.Length ==> memory[i] == 0
      ensures alu.bitFlags == Alu.BitFlags(false, false, false)
    {
      registers := map[AC := 0, IP := 0, CR := 0, PS := 0, SP := 0, DR := 0, AR := 0];
      memory := new int[Isa.AddrMaxValue + 1](_ => 0);
      alu := new Alu.Alu();
      new;
      forall r: Register ensures r in registers && registers[r] == 0 {
        match r
        case AC => case IP => case CR => case PS => case SP => case DR => case AR =>
      }
    }

    function GetRegister(r: Register): int
      reads this
    {
      RegOf(registers, r)
    }

    /** Latches a value into one register; no other register changes. */
    method SigLatchRegister(r: Register, value: int)
      modifies this
      ensures registers == old(registers)[r := value]
      ensures GetRegister(r) == value
      ensures forall q :: q != r ==> GetRegister(q) == old(GetRegister(q))
    {
      registers := registers[r := value];
    }

    function ReadMemory(address: int): (v: Result<int, string>)
      reads this, memory
      requires Valid()
      ensures v.Ok? <==> 0 <= address <= Isa.AddrMaxValue
      ensures v.Ok? ==> v.value == memory[address]
    {
      ReadCell(memory[..], address)
    }

    /** mem[AR] := DR; an AR outside memory panics and nothing changes. */
    method WriteMemory() returns (ok: bool)
      requires Valid()
      modifies memory
      ensures ok <==> 0 <= GetRegister(AR) < memory.Length
      ensures ok ==> memory[..] == old(memory[..])[GetRegister(AR) := GetRegister(DR)]
      ensures !ok ==> memory[..] == old(memory[..])
    {
      var address := GetRegister(AR);
      if 0 <= address < memory.Length {
        memory[address] := GetRegister(DR);
        ok := true;
      } else {
        ok := false;
      }
    }

    function GetFlags(): Alu.BitFlags
      reads this
    {
      FlagsOf(GetRegister(PS))
    }

    function IsInterruptRequired(): bool
      reads this
    {
      InterruptRequired(GetRegister(PS))
    }
  }
}
