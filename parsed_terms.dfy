/**
 * The assembler's intermediate terms and its ways of failing
 * (pkg/translator/translator.go).
 */
module ParsedTerms {
  import Isa

  /** ParsedInstruction: one memory cell as read from a source line, before operands are resolved. */
  datatype ParsedInstruction = ParsedInstruction(
    index: int,
    termLabel: string,
    opcode: string,
    valueType: Isa.ValueType,
    operand: int,
    labelOperand: string,
    metaInfo: Isa.TermMetaInfo)

  /** The zero value of ParsedInstruction. */
  const ZeroInstruction: ParsedInstruction :=
    ParsedInstruction(0, "", "", Isa.ValueTypeNone, 0, "", Isa.TermMetaInfo(0, ""))

  /** A returned error: a ParseError, or a plain error with its message. */
  datatype Failure =
    | ParseError(message: string, lineContent: string, line: int)
    | Error(message: string)

  /** A value, a returned error, or a Go panic. */
  datatype Outcome<+T> = Success(value: T) | Fail(failure: Failure) | Panic(reason: string)

  /** How a step that returns only an error ended. */
  datatype Status = Done | Failed(failure: Failure) | Panicked(reason: string)

  /** The status of an outcome, its value dropped. */
  function StatusOf<T>(o: Outcome<T>): (s: Status)
    ensures s.Done? <==> o.Success?
  {
    match o
    case Success(_) => Done
    case Fail(f) => Failed(f)
    case Panic(r) => Panicked(r)
  }
}
