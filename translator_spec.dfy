/**
 * The assembler of pkg/translator/translator.go as functions: what each line
 * becomes, how operands and labels are resolved, and what Translate returns.
 * The AsmTranslator class in module Translator is proved to compute these.
 */
module TranslatorSpec {
  import opened Wrappers
  import Isa
  import GoStrings
  import AsmUtils
  import opened ParsedTerms

  /** NewConstant: a NOP cell carrying a literal operand. */
  function NewConstant(name: string, operand: int, valueType: Isa.ValueType): ParsedInstruction
  {
    ZeroInstruction.(termLabel := name, operand := operand, valueType := valueType, opcode := Isa.Mnemonic(Isa.Nop))
  }

  /** The label of a "name:" field: the text before its first ':'. */
  function LabelName(field: string): string
  {
    GoStrings.Split(field, ':')[0]
  }

  /** addLabelOperand: the operand is a label name to resolve later. */
  function AddLabelOperand(instruction: ParsedInstruction, name: string): ParsedInstruction
  {
    instruction.(valueType := Isa.ValueTypeAddress, labelOperand := name)
  }

  /**
   * parseInstructionDeclaration: [label:] opcode [operand]; later fields are
   * ignored. A lone label leaves no opcode field, which is a Go panic.
   */
  function ParseInstructionDeclaration(parts: seq<string>): Outcome<ParsedInstruction>
    requires |parts| >= 1
  {
    var labelled := AsmUtils.HasLabel(parts);
    var rest := if labelled then parts[1..] else parts;
    if |rest| == 0 then Panic("index out of range")
    else
      var instruction := ZeroInstruction.(termLabel := if labelled then LabelName(parts[0]) else "", opcode := rest[0]);
      Success(if |rest| > 1 then AddLabelOperand(instruction, rest[1]) else instruction)
  }

  /** One Char constant per character of v, none labelled. */
  function CharCells(v: string): (cells: seq<ParsedInstruction>)
    ensures |cells| == |v|
    ensures forall k :: 0 <= k < |v| ==> cells[k] == NewConstant("", v[k] as int, Isa.ValueTypeChar)
  {
    if |v| == 0 then []
    else [NewConstant("", v[0] as int, Isa.ValueTypeChar)] + CharCells(v[1..])
  }

  /**
   * parseConstString: the characters between the quotes, the label on the
   * first, then a 0 terminator. Nothing left between the quotes makes the
   * source label a cell that does not exist, which is a Go panic.
   */
  function ConstStringSpec(name: string, value: string): Outcome<seq<ParsedInstruction>>
  {
    var v := GoStrings.TrimQuotes(value);
    if |v| == 0 then Panic("index out of range") else Success(StringCells(name, v))
  }

  /** The cells of a non-empty string constant, cell by cell. */
  function StringCells(name: string, v: string): (cells: seq<ParsedInstruction>)
    requires |v| > 0
    ensures |cells| == |v| + 1
    ensures cells[0] == NewConstant(name, v[0] as int, Isa.ValueTypeChar)
    ensures forall k :: 1 <= k < |v| ==> cells[k] == NewConstant("", v[k] as int, Isa.ValueTypeChar)
    ensures cells[|v|] == NewConstant("", 0, Isa.ValueTypeChar)
  {
    var chars := CharCells(v);
    chars[0 := chars[0].(termLabel := name)] + [NewConstant("", 0, Isa.ValueTypeChar)]
  }

  /** Cells that agree with StringCells index by index are StringCells. */
  lemma StringCellsByIndex(name: string, v: string, cells: seq<ParsedInstruction>)
    requires |v| > 0 && |cells| == |v| + 1
    requires cells[0] == NewConstant(name, v[0] as int, Isa.ValueTypeChar)
    requires forall k :: 1 <= k < |v| ==> cells[k] == NewConstant("", v[k] as int, Isa.ValueTypeChar)
    requires cells[|v|] == NewConstant("", 0, Isa.ValueTypeChar)
    ensures cells == StringCells(name, v)
  {
    var s := StringCells(name, v);
    assert forall k :: 0 <= k < |cells| ==> cells[k] == s[k];
  }

  /** parseConstNumber: an Atoi failure is an error naming the text. */
  function ParseConstNumber(name: string, value: string): Outcome<ParsedInstruction>
  {
    match GoStrings.Atoi(value)
    case None => Fail(Error("failed to parse number: " + value))
    case Some(n) => Success(NewConstant(name, n, Isa.ValueTypeNumber))
  }

  /** parseAddressConstantDeclaration: a NOP cell whose operand is the address of a label. */
  function ParseAddressConstantDeclaration(name: string, argument: string): ParsedInstruction
  {
    ZeroInstruction.(termLabel := name, opcode := Isa.Mnemonic(Isa.Nop), valueType := Isa.ValueTypeAddress, labelOperand := argument)
  }

  /** wrapInSlice: the one cell as a slice, the error passed along. */
  function WrapInSlice(o: Outcome<ParsedInstruction>): Outcome<seq<ParsedInstruction>>
  {
    match o
    case Success(i) => Success([i])
    case Fail(f) => Fail(f)
    case Panic(r) => Panic(r)
  }

  /**
   * parseConstantDeclaration: "label: word: argument", where the argument is a
   * quoted string, a number or a label. A missing argument field is a Go panic.
   */
  function ConstantDeclarationSpec(parts: seq<string>): Outcome<seq<ParsedInstruction>>
    requires |parts| >= 1
  {
    if |parts| < 3 then Panic("index out of range")
    else
      var name := LabelName(parts[0]);
      var argument := GoStrings.TrimSpace(parts[2]);
      if GoStrings.HasPrefix(argument, "'") && GoStrings.HasSuffix(argument, "'") then ConstStringSpec(name, argument)
      else if GoStrings.IsNumber(argument) then WrapInSlice(ParseConstNumber(name, argument))
      else Success([ParseAddressConstantDeclaration(name, argument)])
  }

  /** Every cell gets the line's meta information. */
  function WithMeta(cells: seq<ParsedInstruction>, meta: Isa.TermMetaInfo): (r: seq<ParsedInstruction>)
    ensures |r| == |cells|
  {
    seq(|cells|, k requires 0 <= k < |cells| => cells[k].(metaInfo := meta))
  }

  const ReservedWordMessage: string := "Don't use `word` as a label. It's reserved"

  /**
   * parseLine: the cells one cleaned line adds (indices not yet assigned).
   * A blank line adds none; a line starting with "word:" is a ParseError at
   * line 0; a constant's error is wrapped into a ParseError at the line.
   */
  function LineTerms(line: string, lineNumber: int): Outcome<seq<ParsedInstruction>>
  {
    var parts := GoStrings.Fields(line);
    if |parts| == 0 then Success([])
    else if parts[0] == "word:" then Fail(ParseError(ReservedWordMessage, line, 0))
    else DeclarationTerms(parts, line, lineNumber)
  }

  /** LineTerms by the shape of the line's fields. */
  lemma LineTermsCases(line: string, lineNumber: int, parts: seq<string>)
    requires parts == GoStrings.Fields(line)
    ensures |parts| == 0 ==> LineTerms(line, lineNumber) == Success([])
    ensures |parts| > 0 && parts[0] == "word:" ==> LineTerms(line, lineNumber) == Fail(ParseError(ReservedWordMessage, line, 0))
    ensures |parts| > 0 && parts[0] != "word:" ==> LineTerms(line, lineNumber) == DeclarationTerms(parts, line, lineNumber)
  {
  }

  /** The cells of a non-blank line that does not start with "word:". */
  function DeclarationTerms(parts: seq<string>, line: string, lineNumber: int): Outcome<seq<ParsedInstruction>>
    requires |parts| >= 1
  {
    match AsmUtils.IsConstantDeclaration(parts)
    case Err(e) => Panic(e)
    case Ok(true) => ConstantLineTerms(parts, line, lineNumber)
    case Ok(false) => InstructionLineTerms(parts, Isa.TermMetaInfo(lineNumber, line))
  }

  /** A constant declaration's cells, or its error wrapped into a ParseError at the line. */
  function ConstantLineTerms(parts: seq<string>, line: string, lineNumber: int): Outcome<seq<ParsedInstruction>>
    requires |parts| >= 1
  {
    match ConstantDeclarationSpec(parts)
    case Success(cells) => Success(WithMeta(cells, Isa.TermMetaInfo(lineNumber, line)))
    case Fail(f) => Fail(ParseError("failed to parse constant: " + f.message, line, lineNumber))
    case Panic(r) => Panic(r)
  }

  /** An instruction line's one cell. */
  function InstructionLineTerms(parts: seq<string>, meta: Isa.TermMetaInfo): Outcome<seq<ParsedInstruction>>
    requires |parts| >= 1
  {
    match ParseInstructionDeclaration(parts)
    case Success(i) => Success([i.(metaInfo := meta)])
    case Fail(f) => Fail(f)
    case Panic(r) => Panic(r)
  }

  /** A raw line without its comment and surrounding white space. */
  function CleanLine(raw: string): string
  {
    GoStrings.TrimSpace(GoStrings.Split(raw, ';')[0])
  }

  /** The cells gathered from the first lines, and how parsing them ended. */
  datatype Parsing = Parsing(terms: seq<ParsedInstruction>, status: Status)

  /** ParseInstructions over lines[..n]: lines are numbered from 1; the first failing line stops the rest. */
  function LinesTerms(lines: seq<string>, n: nat): Parsing
    requires n <= |lines|
  {
    if n == 0 then Parsing([], Done)
    else
      var p := LinesTerms(lines, n - 1);
      if !p.status.Done? then p
      else
        match LineTerms(CleanLine(lines[n - 1]), n)
        case Success(cells) => Parsing(p.terms + cells, Done)
        case Fail(f) => Parsing(p.terms, Failed(f))
        case Panic(r) => Parsing(p.terms, Panicked(r))
  }

  /** The cells of the whole input, split on "\n". */
  function ParseSpec(input: string): Parsing
  {
    var lines := GoStrings.Split(input, '\n');
    LinesTerms(lines, |lines|)
  }

  /** addInstruction applied to each cell in turn: consecutive indices from start. */
  function Indexed(cells: seq<ParsedInstruction>, start: int): (r: seq<ParsedInstruction>)
    ensures |r| == |cells|
  {
    seq(|cells|, k requires 0 <= k < |cells| => cells[k].(index := start + k))
  }

  /** labelToAddress: the index of the first cell with the label. */
  function FindLabel(instructions: seq<ParsedInstruction>, name: string): (r: Option<int>)
    ensures r.None? <==> forall k :: 0 <= k < |instructions| ==> instructions[k].termLabel != name
    ensures r.Some? ==> (exists k :: 0 <= k < |instructions| && instructions[k].termLabel == name
                          && instructions[k].index == r.value
                          && forall j :: 0 <= j < k ==> instructions[j].termLabel != name)
  {
    if |instructions| == 0 then None
    else if instructions[0].termLabel == name then Some(instructions[0].index)
    else
      var r := FindLabel(instructions[1..], name);
      if r.Some? then
        ghost var k :| 0 <= k < |instructions[1..]| && instructions[1..][k].termLabel == name
          && instructions[1..][k].index == r.value
          && forall j :: 0 <= j < k ==> instructions[1..][j].termLabel != name;
        assert instructions[k + 1].termLabel == name;
        r
      else r
  }

  function LabelNotFoundMessage(name: string): string
  {
    "label '" + name + "' not found"
  }

  /** inferOperand: no operand, the literal, or the resolved label; an empty label operand is a Go panic. */
  function InferOperandSpec(instructions: seq<ParsedInstruction>, instruction: ParsedInstruction): Outcome<Option<int>>
  {
    match instruction.valueType
    case ValueTypeNone => Success(None)
    case ValueTypeChar => Success(Some(instruction.operand))
    case ValueTypeNumber => Success(Some(instruction.operand))
    case ValueTypeAddress =>
      if instruction.labelOperand == "" then Panic("label operand is empty: " + instruction.opcode)
      else
        match FindLabel(instructions, instruction.labelOperand)
        case None => Fail(Error(LabelNotFoundMessage(instruction.labelOperand)))
        case Some(a) => Success(Some(a))
  }

  /** The error GetOpcodeFromString returns for an unknown mnemonic (its text is not part of this model). */
  function UnknownOpcodeMessage(mnemonic: string): string
  {
    "unknown opcode: " + mnemonic
  }

  /** One machine-code term: operand first, then the opcode; Address operands become Number. */
  function TermSpec(instructions: seq<ParsedInstruction>, instruction: ParsedInstruction): Outcome<Isa.MachineCodeTerm>
  {
    match InferOperandSpec(instructions, instruction)
    case Fail(f) => Fail(f)
    case Panic(r) => Panic(r)
    case Success(operand) =>
      match Isa.GetOpcodeFromString(instruction.opcode)
      case None => Fail(Error(UnknownOpcodeMessage(instruction.opcode)))
      case Some(opcode) =>
        Success(Isa.MachineCodeTerm(
          instruction.index,
          if instruction.termLabel == "" then None else Some(instruction.termLabel),
          opcode,
          operand,
          if instruction.valueType == Isa.ValueTypeAddress then Isa.ValueTypeNumber else instruction.valueType,
          instruction.metaInfo))
  }

  /** convertTermsToMachineCode over the first n cells: the first failing cell stops the conversion. */
  function ConvertSpec(instructions: seq<ParsedInstruction>, n: nat): (r: Outcome<seq<Isa.MachineCodeTerm>>)
    requires n <= |instructions|
    ensures r.Success? ==> |r.value| == n
    decreases n, 1
  {
    if n == 0 then Success([]) else ConvertCell(instructions, n)
  }

  /** The n-th cell's step of ConvertSpec: the first n - 1 cells, then cell n - 1 appended. */
  function ConvertCell(instructions: seq<ParsedInstruction>, n: nat): (r: Outcome<seq<Isa.MachineCodeTerm>>)
    requires 0 < n <= |instructions|
    ensures r.Success? ==> |r.value| == n
    decreases n, 0
  {
    match ConvertSpec(instructions, n - 1)
    case Fail(f) => Fail(f)
    case Panic(r) => Panic(r)
    case Success(code) =>
      match TermSpec(instructions, instructions[n - 1])
      case Fail(f) => Fail(f)
      case Panic(r) => Panic(r)
      case Success(term) => Success(code + [term])
  }

  predicate IsStart(term: Isa.MachineCodeTerm)
  {
    term.termLabel == Some("start")
  }

  /** The position of the first term labelled "start" at or after from, or -1. */
  function IndexOfStart(code: seq<Isa.MachineCodeTerm>, from: nat): (k: int)
    requires from <= |code|
    ensures k == -1 <==> forall j :: from <= j < |code| ==> !IsStart(code[j])
    ensures k != -1 ==> from <= k < |code| && IsStart(code[k]) && forall j :: from <= j < k ==> !IsStart(code[j])
    decreases |code| - from
  {
    if from == |code| then -1
    else if IsStart(code[from]) then from
    else IndexOfStart(code, from + 1)
  }

  /** addStartAddress: the start is the index of the first term labelled "start". */
  function AddStartAddress(code: seq<Isa.MachineCodeTerm>): (r: Outcome<Isa.Program>)
    ensures r.Panic? == false
    ensures r.Fail? <==> forall j :: 0 <= j < |code| ==> !IsStart(code[j])
    ensures r.Fail? ==> r.failure == Error("start label not found")
    ensures r.Success? ==> r.value.instructions == code
    ensures r.Success? ==> (exists k :: 0 <= k < |code| && IsStart(code[k]) && r.value.startAddress == code[k].index
                             && forall j :: 0 <= j < k ==> !IsStart(code[j]))
  {
    var k := IndexOfStart(code, 0);
    if k == -1 then Fail(Error("start label not found"))
    else Success(Isa.Program(code[k].index, code))
  }

  /**
   * Translate on a translator that already holds prior cells (a fresh one
   * holds none): parse every line, then convert all cells, then find the start.
   */
  function TranslateSpec(prior: seq<ParsedInstruction>, input: string): Outcome<Isa.Program>
  {
    var p := ParseSpec(input);
    match p.status
    case Failed(f) => Fail(f)
    case Panicked(r) => Panic(r)
    case Done => AssembleSpec(prior + Indexed(p.terms, |prior|))
  }

  /** The second half of Translate: convert every cell, then find the start. */
  function AssembleSpec(all: seq<ParsedInstruction>): Outcome<Isa.Program>
  {
    match ConvertSpec(all, |all|)
    case Fail(f) => Fail(f)
    case Panic(r) => Panic(r)
    case Success(code) => AddStartAddress(code)
  }

  /** Translate's outcome from how parsing ended. */
  lemma TranslateParts(prior: seq<ParsedInstruction>, input: string, p: Parsing)
    requires p == ParseSpec(input)
    ensures p.status.Done? ==> TranslateSpec(prior, input) == AssembleSpec(prior + Indexed(p.terms, |prior|))
    ensures p.status.Failed? ==> TranslateSpec(prior, input) == Fail(p.status.failure)
    ensures p.status.Panicked? ==> TranslateSpec(prior, input) == Panic(p.status.reason)
  {
  }

  /** Indexing a concatenation indexes the second part where the first one ends. */
  lemma IndexedAppend(a: seq<ParsedInstruction>, b: seq<ParsedInstruction>, start: int)
    ensures Indexed(a + b, start) == Indexed(a, start) + Indexed(b, start + |a|)
  {
  }

  lemma Associative(x: seq<ParsedInstruction>, y: seq<ParsedInstruction>, z: seq<ParsedInstruction>)
    ensures (x + y) + z == x + (y + z)
  {
  }

  lemma IndexedSingle(cell: ParsedInstruction, start: int)
    ensures Indexed([cell], start) == [cell.(index := start)]
  {
    assert Indexed([cell], start)[0] == cell.(index := start);
  }

  /** Numbering a prefix and then the cells after it numbers the whole. */
  lemma IndexedStep(prior: seq<ParsedInstruction>, before: seq<ParsedInstruction>, after: seq<ParsedInstruction>,
                    done: seq<ParsedInstruction>, more: seq<ParsedInstruction>)
    requires before == prior + Indexed(done, |prior|)
    requires after == before + Indexed(more, |before|)
    ensures after == prior + Indexed(done + more, |prior|)
  {
    IndexedAppend(done, more, |prior|);
    Associative(prior, Indexed(done, |prior|), Indexed(more, |prior| + |done|));
  }

  lemma LinesTermsNext(lines: seq<string>, i: nat)
    requires i < |lines| && LinesTerms(lines, i).status.Done?
    requires LineTerms(CleanLine(lines[i]), i + 1).Success?
    ensures LinesTerms(lines, i + 1).status.Done?
    ensures LinesTerms(lines, i + 1).terms == LinesTerms(lines, i).terms + LineTerms(CleanLine(lines[i]), i + 1).value
  {
  }

  /** A line that does not parse ends the parse with its status and adds no cell. */
  lemma LinesTermsFail(lines: seq<string>, i: nat, o: Outcome<seq<ParsedInstruction>>)
    requires i < |lines| && LinesTerms(lines, i).status.Done?
    requires o == LineTerms(CleanLine(lines[i]), i + 1) && !o.Success?
    ensures LinesTerms(lines, i + 1) == Parsing(LinesTerms(lines, i).terms, StatusOf(o))
  {
  }

  /** One more line: its status is the parse's new status, and its numbered cells, if any, extend the list. */
  lemma LinesTermsStep(prior: seq<ParsedInstruction>, before: seq<ParsedInstruction>, after: seq<ParsedInstruction>,
                       lines: seq<string>, i: nat, o: Outcome<seq<ParsedInstruction>>)
    requires i < |lines| && LinesTerms(lines, i).status.Done?
    requires before == prior + Indexed(LinesTerms(lines, i).terms, |prior|)
    requires o == LineTerms(CleanLine(lines[i]), i + 1)
    requires after == before + (if o.Success? then Indexed(o.value, |before|) else [])
    ensures LinesTerms(lines, i + 1).status == StatusOf(o)
    ensures after == prior + Indexed(LinesTerms(lines, i + 1).terms, |prior|)
  {
    if o.Success? {
      LinesTermsNext(lines, i);
      IndexedStep(prior, before, after, LinesTerms(lines, i).terms, o.value);
    } else {
      LinesTermsFail(lines, i, o);
      assert after == before;
    }
  }

  /** Once a line fails, the later lines change nothing. */
  lemma {:induction false} LinesTermsStop(lines: seq<string>, i: nat, n: nat)
    requires i <= n <= |lines|
    requires !LinesTerms(lines, i).status.Done?
    ensures LinesTerms(lines, n) == LinesTerms(lines, i)
    decreases n - i
  {
    if i < n {
      LinesTermsStop(lines, i, n - 1);
    }
  }

  /** Once a cell fails to convert, the later cells change nothing. */
  lemma {:induction false} ConvertStop(instructions: seq<ParsedInstruction>, i: nat, n: nat)
    requires i <= n <= |instructions|
    requires !ConvertSpec(instructions, i).Success?
    ensures ConvertSpec(instructions, n) == ConvertSpec(instructions, i)
    decreases n - i
  {
    if i < n {
      ConvertStop(instructions, i, n - 1);
      assert ConvertSpec(instructions, n) == ConvertCell(instructions, n);
    }
  }
}
