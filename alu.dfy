/**
 * The arithmetic-logic unit of the simulator (pkg/machine/alu.go): a table of
 * integer operations, a persistent flag set, and an Execute that copies the
 * left operand's word and replaces only its value.
 */
module Alu {
  import opened Wrappers
  import Isa
  import Bits

  datatype AluOperation = OpNone | OpAdd | OpSub | OpMul | OpMod | OpRight | OpOr | OpAnd

  /**
   * The opcode-to-operation table. An opcode without an entry reads as the
   * zero value OpNone, as a Go map lookup does.
   */
  const OpcodeTable: map<Isa.Opcode, AluOperation> :=
    map[Isa.Add := OpAdd, Isa.Sub := OpSub, Isa.Cla := OpRight, Isa.Cmp := OpSub, Isa.Mod := OpMod]

  function OpcodeToAluOperation(op: Isa.Opcode): AluOperation
  {
    if op in OpcodeTable then OpcodeTable[op] else OpNone
  }

  /** Exactly ADD, SUB, CMP, CLA and MOD are mapped, and to these operations. */
  lemma OpcodeTableEntries(op: Isa.Opcode)
    ensures OpcodeToAluOperation(op) != OpNone <==> op in {Isa.Add, Isa.Sub, Isa.Cmp, Isa.Cla, Isa.Mod}
    ensures op == Isa.Add ==> OpcodeToAluOperation(op) == OpAdd
    ensures op == Isa.Sub || op == Isa.Cmp ==> OpcodeToAluOperation(op) == OpSub
    ensures op == Isa.Cla ==> OpcodeToAluOperation(op) == OpRight
    ensures op == Isa.Mod ==> OpcodeToAluOperation(op) == OpMod
  {
  }

  /** The operations registered in the ALU's operation table: all but OpNone. */
  predicate Registered(op: AluOperation)
  {
    op != OpNone
  }

  /**
   * Runs one operation on two integers. An unregistered operation panics with
   * "unknown operation"; Go's `%` panics on a zero divisor.
   */
  function BinaryOperation(op: AluOperation, left: int, right: int): Result<int, string>
  {
    match op
    case OpNone => Err("unknown operation")
    case OpAdd => Ok(left + right)
    case OpSub => Ok(left - right)
    case OpMul => Ok(left * right)
    case OpMod => if right == 0 then Err("integer divide by zero") else Ok(Bits.TruncMod(left, right))
    case OpRight => Ok(right)
    case OpOr => Ok(Bits.Or(left, right))
    case OpAnd => Ok(Bits.And(left, right))
  }

  /** An operation fails exactly when it is unregistered or is a remainder by zero. */
  lemma BinaryOperationFails(op: AluOperation, left: int, right: int)
    ensures BinaryOperation(op, left, right).Err? <==> !Registered(op) || (op == OpMod && right == 0)
  {
  }

  /** Go's remainder keeps the sign of the left operand and is smaller than the divisor. */
  lemma ModSign(left: int, right: int)
    requires right != 0
    ensures BinaryOperation(OpMod, left, right).Ok?
    ensures var r := BinaryOperation(OpMod, left, right).value;
      && left == Bits.TruncDiv(left, right) * right + r
      && (left >= 0 ==> 0 <= r < Bits.Abs(right))
      && (left < 0 ==> -Bits.Abs(right) < r <= 0)
  {
    Bits.TruncDivMod(left, right);
  }

  /** Or and and work bit by bit, on negative values as well. */
  lemma BitwiseOperations(left: int, right: int, k: nat)
    ensures Bits.Bit(BinaryOperation(OpOr, left, right).value, k) == (Bits.Bit(left, k) || Bits.Bit(right, k))
    ensures Bits.Bit(BinaryOperation(OpAnd, left, right).value, k) == (Bits.Bit(left, k) && Bits.Bit(right, k))
  {
    Bits.OrBits(left, right, k);
    Bits.AndBits(left, right, k);
  }

  datatype BitFlags = BitFlags(zero: bool, negative: bool, carry: bool)

  /** The flags an updating call derives from a raw output. */
  function FlagsFor(value: int): BitFlags
  {
    BitFlags(
      zero := value == 0,
      negative := value < 0,
      carry := value > Isa.WordMaxValue || value < Isa.WordMinValue)
  }

  /** The arguments of one ALU call, built by NewAluOp and the setters. */
  datatype ExecutionParams = ExecutionParams(
    operation: AluOperation,
    left: Isa.MachineWord,
    right: Isa.MachineWord,
    updateFlags: bool)
  {
    function SetLeft(w: Isa.MachineWord): (p: ExecutionParams)
      ensures p.left == w
      ensures p.operation == operation && p.right == right && p.updateFlags == updateFlags
    {
      this.(left := w)
    }

    function SetLeftValue(n: int): (p: ExecutionParams)
      ensures p.left.value == n && p.left.valueType == Isa.ValueTypeNumber
      ensures p.operation == operation && p.right == right && p.updateFlags == updateFlags
    {
      this.(left := Isa.NewConstantNumber(n))
    }

    function SetRight(w: Isa.MachineWord): (p: ExecutionParams)
      ensures p.right == w
      ensures p.operation == operation && p.left == left && p.updateFlags == updateFlags
    {
      this.(right := w)
    }

    function SetRightValue(n: int): (p: ExecutionParams)
      ensures p.right.value == n && p.right.valueType == Isa.ValueTypeNumber
      ensures p.operation == operation && p.left == left && p.updateFlags == updateFlags
    {
      this.(right := Isa.NewConstantNumber(n))
    }

    function UpdateFlags(u: bool): (p: ExecutionParams)
      ensures p.updateFlags == u
      ensures p.operation == operation && p.left == left && p.right == right
    {
      this.(updateFlags := u)
    }
  }

  /** A fresh parameter set: both operands the number 0, flags not updated. */
  function NewAluOp(op: AluOperation): (p: ExecutionParams)
    ensures p.operation == op && !p.updateFlags
    ensures p.left.value == 0 && p.left.valueType == Isa.ValueTypeNumber
    ensures p.right == p.left
  {
    ExecutionParams(op, Isa.NewConstantNumber(0), Isa.NewConstantNumber(0), false)
  }

  /** What one call to Execute returns: a word and a flag set, or a panic. */
  datatype AluResult = AluOk(word: Isa.MachineWord, flags: BitFlags) | AluPanic(reason: string)

  /**
   * Execute as a function of its parameters and the flags the ALU holds
   * before the call; the flags it returns are the ALU's flags after the call.
   */
  function ExecuteSpec(p: ExecutionParams, flags: BitFlags): AluResult
  {
    match BinaryOperation(p.operation, p.left.value, p.right.value)
    case Err(reason) => AluPanic(reason)
    case Ok(output) =>
      AluOk(p.left.(value := output), if p.updateFlags then FlagsFor(output) else flags)
  }

  /**
   * The result is the left operand's word with only its value replaced by the
   * raw output; nothing wraps it into the word range.
   */
  lemma ExecuteKeepsLeftWord(p: ExecutionParams, flags: BitFlags)
    requires Registered(p.operation) && !(p.operation == OpMod && p.right.value == 0)
    ensures ExecuteSpec(p, flags).AluOk?
    ensures ExecuteSpec(p, flags).word.valueType == p.left.valueType
    ensures ExecuteSpec(p, flags).word.value == BinaryOperation(p.operation, p.left.value, p.right.value).value
  {
  }

  /** An add can leave the word range: the result is not wrapped, the carry flag records it. */
  lemma ExecuteDoesNotWrap()
    ensures var p := NewAluOp(OpAdd).SetLeftValue(Isa.WordMaxValue).SetRightValue(1).UpdateFlags(true);
      var r := ExecuteSpec(p, BitFlags(false, false, false));
      r.AluOk? && r.word.value == Isa.WordMaxValue + 1 && r.word.value > Isa.WordMaxValue && r.flags.carry
  {
  }

  /** With updateFlags set the flags describe the raw output. */
  lemma ExecuteSetsFlags(p: ExecutionParams, flags: BitFlags)
    requires p.updateFlags
    requires ExecuteSpec(p, flags).AluOk?
    ensures var r := ExecuteSpec(p, flags);
      && (r.flags.zero <==> r.word.value == 0)
      && (r.flags.negative <==> r.word.value < 0)
      && (r.flags.carry <==> r.word.value > Isa.WordMaxValue || r.word.value < Isa.WordMinValue)
  {
  }

  /** Without updateFlags the flags returned are the ones left by the last updating call. */
  lemma ExecuteKeepsFlags(p: ExecutionParams, flags: BitFlags)
    requires !p.updateFlags
    requires ExecuteSpec(p, flags).AluOk?
    ensures ExecuteSpec(p, flags).flags == flags
  {
  }

  /** Execute panics exactly when the operation has no table entry or divides by zero. */
  lemma ExecutePanics(p: ExecutionParams, flags: BitFlags)
    ensures ExecuteSpec(p, flags).AluPanic? <==>
      (p.operation == OpNone || (p.operation == OpMod && p.right.value == 0))
  {
  }

  /** An opcode missing from the table yields OpNone, on which Execute panics. */
  lemma UnmappedOpcodePanics(op: Isa.Opcode, left: int, right: int, flags: BitFlags)
    requires op !in {Isa.Add, Isa.Sub, Isa.Cmp, Isa.Cla, Isa.Mod}
    ensures ExecuteSpec(NewAluOp(OpcodeToAluOperation(op)).SetLeftValue(left).SetRightValue(right), flags)
      == AluPanic("unknown operation")
  {
  }

  /** The ALU: its only state is the flag set left by the last updating call. */
  class Alu {
    var bitFlags: BitFlags

    constructor ()
      ensures bitFlags == BitFlags(false, false, false)
    {
      bitFlags := BitFlags(false, false, false);
    }

    method SetFlags(value: int)
      modifies this
      ensures bitFlags.carry == (value > Isa.WordMaxValue || value < Isa.WordMinValue)
      ensures bitFlags.zero == (value == 0)
      ensures bitFlags.negative == (value < 0)
    {
      bitFlags := bitFlags.(carry := value > Isa.WordMaxValue || value < Isa.WordMinValue);
      bitFlags := bitFlags.(zero := value == 0);
      bitFlags := bitFlags.(negative := value < 0);
    }

    method Execute(p: ExecutionParams) returns (r: AluResult)
      modifies this
      ensures r == ExecuteSpec(p, old(bitFlags))
      ensures r.AluOk? ==> bitFlags == r.flags
      ensures r.AluPanic? ==> bitFlags == old(bitFlags)
    {
      if !Registered(p.operation) {
        return AluPanic("unknown operation");
      }
      var output := BinaryOperation(p.operation, p.left.value, p.right.value);
      if output.Err? {
        return AluPanic(output.error);
      }
      var result := p.left.(value := output.value);
      if p.updateFlags {
        SetFlags(output.value);
      }
      r := AluOk(result, bitFlags);
    }
  }
}
