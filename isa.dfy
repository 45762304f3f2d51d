/**
 * The instruction-set vocabulary shared by the simulator and the assembler:
 * opcodes and their classes, typed machine words and the translated program.
 * The Go package that defines these is not part of this model; the concrete
 * choices made here (mnemonics, classes, word and address limits) are listed
 * in README.md.
 */
module Isa {
  import opened Wrappers

  /** Largest and smallest value of a machine word (a 32-bit signed word). */
  const WordMaxValue: int := 0x7FFF_FFFF
  const WordMinValue: int := -0x8000_0000

  /** Highest memory address; memory has AddrMaxValue + 1 cells. */
  const AddrMaxValue: nat := 2047

  datatype Opcode =
    | Load | Store | Add | Sub | Mul | Mod | And | Or | Cmp
    | Nop | Hlt | Cla | Inc | Dec | Push | Pop | Iret | Ei | Di
    | Jmp | Jz | Jnz | Jc | Jnc | Jn | Jnneg
    | In | Out

  /** Every opcode belongs to exactly one class; the class drives dispatch. */
  datatype OpcodeType = AddressType | AddresslessType | BranchType | IoType

  function TypeOf(op: Opcode): OpcodeType
  {
    match op
    case Load | Store | Add | Sub | Mul | Mod | And | Or | Cmp => AddressType
    case Nop | Hlt | Cla | Inc | Dec | Push | Pop | Iret | Ei | Di => AddresslessType
    case Jmp | Jz | Jnz | Jc | Jnc | Jn | Jnneg => BranchType
    case In | Out => IoType
  }

  /** The canonical mnemonic of an opcode (its String()). */
  function Mnemonic(op: Opcode): string
  {
    match op
    case Load => "LD"    case Store => "ST"   case Add => "ADD"   case Sub => "SUB"
    case Mul => "MUL"    case Mod => "MOD"    case And => "AND"   case Or => "OR"
    case Cmp => "CMP"    case Nop => "NOP"    case Hlt => "HLT"   case Cla => "CLA"
    case Inc => "INC"    case Dec => "DEC"    case Push => "PUSH" case Pop => "POP"
    case Iret => "IRET"  case Ei => "EI"      case Di => "DI"     case Jmp => "JMP"
    case Jz => "JZ"      case Jnz => "JNZ"    case Jc => "JC"     case Jnc => "JNC"
    case Jn => "JN"      case Jnneg => "JNNEG"
    case In => "IN"      case Out => "OUT"
  }

  /** Every opcode, in declaration order. */
  const AllOpcodes: seq<Opcode> :=
    [Load, Store, Add, Sub, Mul, Mod, And, Or, Cmp, Nop, Hlt, Cla, Inc, Dec, Push, Pop,
     Iret, Ei, Di, Jmp, Jz, Jnz, Jc, Jnc, Jn, Jnneg, In, Out]

  /** The first opcode of ops whose mnemonic is s. */
  function FindMnemonic(s: string, ops: seq<Opcode>): (r: Option<Opcode>)
    ensures r.Some? ==> Mnemonic(r.value) == s && r.value in ops
    ensures r.None? ==> forall op :: op in ops ==> Mnemonic(op) != s
  {
    if |ops| == 0 then None
    else if Mnemonic(ops[0]) == s then Some(ops[0])
    else FindMnemonic(s, ops[1..])
  }

  /** Looks a mnemonic up; an unknown mnemonic is an error (None). */
  function GetOpcodeFromString(s: string): (r: Option<Opcode>)
    ensures r.Some? ==> Mnemonic(r.value) == s
  {
    FindMnemonic(s, AllOpcodes)
  }

  /** AllOpcodes lists every opcode. */
  lemma AllOpcodesComplete(op: Opcode)
    ensures op in AllOpcodes
  {
    match op
    case Load => assert AllOpcodes[0] == Load;
    case Store => assert AllOpcodes[1] == Store;
    case Add => assert AllOpcodes[2] == Add;
    case Sub => assert AllOpcodes[3] == Sub;
    case Mul => assert AllOpcodes[4] == Mul;
    case Mod => assert AllOpcodes[5] == Mod;
    case And => assert AllOpcodes[6] == And;
    case Or => assert AllOpcodes[7] == Or;
    case Cmp => assert AllOpcodes[8] == Cmp;
    case Nop => assert AllOpcodes[9] == Nop;
    case Hlt => assert AllOpcodes[10] == Hlt;
    case Cla => assert AllOpcodes[11] == Cla;
    case Inc => assert AllOpcodes[12] == Inc;
    case Dec => assert AllOpcodes[13] == Dec;
    case Push => assert AllOpcodes[14] == Push;
    case Pop => assert AllOpcodes[15] == Pop;
    case Iret => assert AllOpcodes[16] == Iret;
    case Ei => assert AllOpcodes[17] == Ei;
    case Di => assert AllOpcodes[18] == Di;
    case Jmp => assert AllOpcodes[19] == Jmp;
    case Jz => assert AllOpcodes[20] == Jz;
    case Jnz => assert AllOpcodes[21] == Jnz;
    case Jc => assert AllOpcodes[22] == Jc;
    case Jnc => assert AllOpcodes[23] == Jnc;
    case Jn => assert AllOpcodes[24] == Jn;
    case Jnneg => assert AllOpcodes[25] == Jnneg;
    case In => assert AllOpcodes[26] == In;
    case Out => assert AllOpcodes[27] == Out;
  }

  /** Only the mnemonics of opcodes are known. */
  lemma UnknownMnemonic(s: string)
    requires GetOpcodeFromString(s).None?
    ensures forall op :: Mnemonic(op) != s
  {
    forall op ensures Mnemonic(op) != s {
      AllOpcodesComplete(op);
    }
  }

  /** Parsing a mnemonic gives back the opcode it names. */
  lemma MnemonicRoundTrip(op: Opcode)
    ensures GetOpcodeFromString(Mnemonic(op)) == Some(op)
  {
    AllOpcodesComplete(op);
    var r := GetOpcodeFromString(Mnemonic(op));
    assert r.Some?;
    MnemonicInjective(r.value, op);
  }

  /** Different opcodes have different mnemonics. */
  lemma MnemonicInjective(a: Opcode, b: Opcode)
    requires Mnemonic(a) == Mnemonic(b)
    ensures a == b
  {
    var m := Mnemonic(a);
    assert |m| > 0 && m[0] == Mnemonic(b)[0];
  }

  datatype ValueType = ValueTypeNone | ValueTypeNumber | ValueTypeChar | ValueTypeAddress

  /** A word as the ALU sees it: a value and the tag saying what it holds. */
  datatype MachineWord = MachineWord(value: int, valueType: ValueType)

  function NewConstantNumber(n: int): (w: MachineWord)
    ensures w.value == n && w.valueType == ValueTypeNumber
  {
    MachineWord(n, ValueTypeNumber)
  }

  /** Where a term came from in the assembly text. */
  datatype TermMetaInfo = TermMetaInfo(lineNum: int, originalContent: string)

  datatype MachineCodeTerm = MachineCodeTerm(
    index: int,
    termLabel: Option<string>,
    opcode: Opcode,
    operand: Option<int>,
    operandType: ValueType,
    termInfo: TermMetaInfo)

  datatype Program = Program(startAddress: int, instructions: seq<MachineCodeTerm>)

  /** The zero Program returned alongside every translation error. */
  const EmptyProgram: Program := Program(0, [])
}
