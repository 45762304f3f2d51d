/**
 * The earlier ALU and data path under cmd/machine (cmd/machine/datapath/alu.go,
 * repeated in cmd/machine/datapath.go): operations chosen by an integer code,
 * a two's-complement wrap helper, and flags kept as bits of an int.
 */
module Legacy {
  import Isa
  import Bits

  const Max: int := Isa.WordMaxValue
  const Min: int := Isa.WordMinValue

  /** The number of distinct words: 2 * (WORD_MAX_VALUE + 1). */
  const Span: int := 2 * (Max + 1)

  /**
   * wrapOverflow as written: an out-of-range value is shifted by Max + 1,
   * reduced with Go's %, which keeps the sign of the dividend, and shifted back.
   * From Min upwards the result is the word congruent to the value; below Min
   * it stays below the range unless the shifted value is a multiple of Span.
   */
  function WrapOverflow(value: int): (r: int)
    ensures Min <= value <= Max ==> r == value
    ensures value >= Min ==> Min <= r <= Max && (r - value) % Span == 0
    ensures value < Min ==> (r == Min <==> (value + Max + 1) % Span == 0)
    ensures value < Min ==> r <= Min
  {
    if value > Max || value < Min then
      Bits.TruncDivMod(value + (Max + 1), Span);
      Bits.TruncMod(value + (Max + 1), Span) - Max - 1
    else value
  }

  /** Just past the largest word comes the smallest. */
  lemma WrapMaxPlusOne()
    ensures WrapOverflow(Max + 1) == Min
  {
    assert Bits.TruncMod(Max + 1 + (Max + 1), Span) == 0;
  }

  /** Above the range, wrapping twice is wrapping once. */
  lemma WrapIdempotentAbove(value: int)
    requires value >= Min
    ensures WrapOverflow(WrapOverflow(value)) == WrapOverflow(value)
  {
  }

  /** Just below the smallest word, wrapOverflow returns its argument: still out of range. */
  lemma WrapMinMinusOne()
    ensures WrapOverflow(Min - 1) == Min - 1
  {
    assert Bits.TruncMod(Min - 1 + (Max + 1), Span) == -1;
  }

  /**
   * The evident intent of wrapOverflow: the word congruent to the value
   * modulo Span, for every value (Dafny's % is Euclidean, so the remainder
   * is never negative).
   */
  function WrapOverflowFixed(value: int): (r: int)
    ensures Min <= r <= Max
    ensures (r - value) % Span == 0
    ensures Min <= value <= Max ==> r == value
  {
    if value > Max || value < Min then (value + (Max + 1)) % Span - Max - 1
    else value
  }

  /** The corrected wrap is idempotent, agrees with the written one from Min up, and fixes Min - 1. */
  lemma WrapFixedProperties(value: int)
    ensures WrapOverflowFixed(WrapOverflowFixed(value)) == WrapOverflowFixed(value)
    ensures value >= Min ==> WrapOverflowFixed(value) == WrapOverflow(value)
    ensures WrapOverflowFixed(Min - 1) == Max
  {
    var r := WrapOverflowFixed(value);
    if value >= Min {
      var w := WrapOverflow(value);
      assert (r - w) % Span == 0 by {
        assert r - w == (r - value) - (w - value);
      }
      UniqueWord(r, w);
    }
  }

  /** Two words that are congruent modulo Span are equal. */
  lemma UniqueWord(a: int, b: int)
    requires Min <= a <= Max && Min <= b <= Max
    requires (a - b) % Span == 0
    ensures a == b
  {
  }

  // The operation codes of AluOperation, in declaration order.
  const OpAdd: int := 0
  const OpSub: int := 1
  const OpMul: int := 2
  const OpDiv: int := 3
  const OpMod: int := 4
  const OpRight: int := 5
  const OpLeft: int := 6

  /** What one operation gives: a value, or a Go panic. */
  datatype Output = Value(value: int) | Panicked(reason: string)

  /**
   * The function operation2func holds for op, applied; a code with no
   * function is the "unknown operation" panic, a zero divisor Go's runtime
   * panic.
   */
  function Apply(op: int, left: int, right: int): Output
  {
    if op == OpAdd then Value(left + right)
    else if op == OpSub then Value(left - right)
    else if op == OpMul then Value(left * right)
    else if op == OpDiv then (if right == 0 then Panicked("integer divide by zero") else Value(Bits.TruncDiv(left, right)))
    else if op == OpMod then (if right == 0 then Panicked("integer divide by zero") else Value(Bits.TruncMod(left, right)))
    else if op == OpRight then Value(right)
    else if op == OpLeft then Value(left)
    else Panicked("unknown operation")
  }

  /** Apply panics exactly for a code outside the table or a zero divisor. */
  lemma ApplyPanics(op: int, left: int, right: int)
    ensures Apply(op, left, right).Panicked? <==> op < OpAdd || op > OpLeft || ((op == OpDiv || op == OpMod) && right == 0)
    ensures Apply(op, left, right).Panicked? && (op < OpAdd || op > OpLeft) ==> Apply(op, left, right).reason == "unknown operation"
  {
  }

  /** div and mod follow Go: the quotient truncated toward zero, the remainder with the sign of the dividend. */
  lemma DivModTruncate(left: int, right: int)
    requires right != 0
    ensures left == Apply(OpDiv, left, right).value * right + Apply(OpMod, left, right).value
    ensures left >= 0 ==> 0 <= Apply(OpMod, left, right).value < Bits.Abs(right)
    ensures left < 0 ==> -Bits.Abs(right) < Apply(OpMod, left, right).value <= 0
  {
    Bits.TruncDivMod(left, right);
  }

  /** setBit on a value: bit k set to value, every other bit kept. */
  function SetBitValue(flags: int, bit: nat, value: bool): (r: int)
    ensures forall k: nat :: Bits.Bit(r, k) == (if k == bit then value else Bits.Bit(flags, k))
  {
    var mask := Bits.Pow2(bit);
    if value then
      assert forall k: nat :: Bits.Bit(Bits.Or(flags, mask), k) == (Bits.Bit(flags, k) || k == bit) by {
        forall k: nat
          ensures Bits.Bit(Bits.Or(flags, mask), k) == (Bits.Bit(flags, k) || k == bit)
        {
          Bits.OrBits(flags, mask, k);
          Bits.Pow2Bits(bit, k);
        }
      }
      Bits.Or(flags, mask)
    else
      assert forall k: nat :: Bits.Bit(Bits.And(flags, Bits.Not(mask)), k) == (Bits.Bit(flags, k) && k != bit) by {
        forall k: nat
          ensures Bits.Bit(Bits.And(flags, Bits.Not(mask)), k) == (Bits.Bit(flags, k) && k != bit)
        {
          Bits.AndBits(flags, Bits.Not(mask), k);
          Bits.NotBits(mask, k);
          Bits.Pow2Bits(bit, k);
        }
      }
      Bits.And(flags, Bits.Not(mask))
  }

  // The bits of FlagBit.
  const Zero: nat := 0
  const Negative: nat := 1

  /** setFlags on a value: ZERO and NEGATIVE from the output, the other bits kept. */
  function FlagsAfter(flags: int, output: int): (r: int)
    ensures Bits.Bit(r, Zero) == (output == 0)
    ensures Bits.Bit(r, Negative) == (output < 0)
    ensures forall k: nat :: k != Zero && k != Negative ==> Bits.Bit(r, k) == Bits.Bit(flags, k)
  {
    SetBitValue(SetBitValue(flags, Zero, output == 0), Negative, output < 0)
  }

  /** The ALU of cmd/machine: its flags are bits of an int. */
  class LegacyAlu {
    var bitFlags: int

    /** NewAlu: no flag set. */
    constructor ()
      ensures bitFlags == 0
    {
      bitFlags := 0;
    }

    /** getBit, read as "bit set". */
    function GetBit(bit: nat): bool
      reads this
    {
      Bits.Bit(bitFlags, bit)
    }

    /** setBit: exactly the named bit changes. */
    method SetBit(bit: nat, value: bool)
      modifies this
      ensures bitFlags == SetBitValue(old(bitFlags), bit, value)
      ensures GetBit(bit) == value
      ensures forall k: nat :: k != bit ==> GetBit(k) == old(GetBit(k))
    {
      if value {
        bitFlags := Bits.Or(bitFlags, Bits.Pow2(bit));
      } else {
        bitFlags := Bits.And(bitFlags, Bits.Not(Bits.Pow2(bit)));
      }
    }

    /** setFlags: ZERO iff the value is 0, NEGATIVE iff it is below 0. */
    method SetFlags(value: int)
      modifies this
      ensures bitFlags == FlagsAfter(old(bitFlags), value)
    {
      SetBit(Zero, value == 0);
      SetBit(Negative, value < 0);
    }

    /**
     * Execute: the operation's raw output, not wrapped (wrapOverflow's result
     * is dropped), with the flags refreshed from it; a panic leaves the flags.
     */
    method Execute(op: int, left: int, right: int) returns (r: Output)
      modifies this
      ensures r == Apply(op, left, right)
      ensures r.Value? ==> bitFlags == FlagsAfter(old(bitFlags), r.value)
      ensures r.Panicked? ==> bitFlags == old(bitFlags)
    {
      r := Apply(op, left, right);
      if r.Panicked? {
        return;
      }
      var _ := WrapOverflow(r.value);
      SetFlags(r.value);
    }
  }

  /** What SignalLatchAccumulator did: latched, or indexed past the memory (a Go panic). */
  datatype Signal = Latched | IndexOutOfRange

  /** The data path of cmd/machine/datapath.go. */
  class LegacyDataPath {
    var instructionCounter: int
    var currentTick: int
    var input: seq<bv8>
    var output: seq<bv8>
    var accumulator: int
    var instructionPointer: int
    var memory: seq<int>

    /** NewDataPath: only the input is set; registers are 0 and memory is empty. */
    constructor (dataInput: seq<bv8>)
      ensures input == dataInput && output == []
      ensures instructionCounter == 0 && currentTick == 0
      ensures accumulator == 0 && instructionPointer == 0
      ensures memory == []
    {
      input := dataInput;
      output := [];
      instructionCounter, currentTick := 0, 0;
      accumulator, instructionPointer := 0, 0;
      memory := [];
    }

    /** ReadOutput: what was written to the output buffer. */
    function ReadOutput(): seq<bv8>
      reads this
    {
      output
    }

    /**
     * SignalLatchAccumulator: AC takes the memory word at IP; an IP outside
     * the memory is a Go panic, which changes nothing.
     */
    method SignalLatchAccumulator() returns (s: Signal)
      modifies this
      ensures s == Latched <==> 0 <= old(instructionPointer) < |old(memory)|
      ensures s == Latched ==> accumulator == old(memory)[old(instructionPointer)]
      ensures s == IndexOutOfRange ==> accumulator == old(accumulator)
      ensures instructionPointer == old(instructionPointer) && memory == old(memory)
      ensures input == old(input) && output == old(output)
      ensures instructionCounter == old(instructionCounter) && currentTick == old(currentTick)
    {
      if 0 <= instructionPointer < |memory| {
        accumulator := memory[instructionPointer];
        s := Latched;
      } else {
        s := IndexOutOfRange;
      }
    }
  }
}
