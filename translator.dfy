/**
 * The AsmTranslator of pkg/translator/translator.go: it appends the cells of
 * each line to its instruction list, numbering them as it goes, then turns
 * the list into machine code. Each method is proved to compute the
 * corresponding function of TranslatorSpec.
 */
module Translator {
  import opened Wrappers
  import Isa
  import GoStrings
  import AsmUtils
  import opened ParsedTerms
  import opened TranslatorSpec

  /** parseConstString: one cell per character, the label on the first, then the terminator. */
  method ParseConstString(name: string, value: string) returns (r: Outcome<seq<ParsedInstruction>>)
    ensures r == ConstStringSpec(name, value)
  {
    var v := GoStrings.TrimQuotes(value);
    var cells := CharConstants(v);
    if |cells| == 0 {
      return Panic("index out of range");
    }
    cells := cells[0 := cells[0].(termLabel := name)];
    cells := cells + [NewConstant("", 0, Isa.ValueTypeChar)];
    StringCellsByIndex(name, v, cells);
    r := Success(cells);
  }

  /** The loop of parseConstString: one Char constant per character, in order. */
  method CharConstants(v: string) returns (cells: seq<ParsedInstruction>)
    ensures |cells| == |v|
    ensures forall k :: 0 <= k < |v| ==> cells[k] == NewConstant("", v[k] as int, Isa.ValueTypeChar)
  {
    cells := [];
    for i := 0 to |v|
      invariant |cells| == i
      invariant forall k :: 0 <= k < i ==> cells[k] == NewConstant("", v[k] as int, Isa.ValueTypeChar)
    {
      cells := cells + [NewConstant("", v[i] as int, Isa.ValueTypeChar)];
    }
  }

  /** parseConstantDeclaration: a string, a number or a label after "word:". */
  method ParseConstantDeclaration(parts: seq<string>) returns (r: Outcome<seq<ParsedInstruction>>)
    requires |parts| >= 1
    ensures r == ConstantDeclarationSpec(parts)
  {
    if |parts| < 3 {
      return Panic("index out of range");
    }
    var name := GoStrings.Split(parts[0], ':')[0];
    var argument := GoStrings.TrimSpace(parts[2]);
    if GoStrings.HasPrefix(argument, "'") && GoStrings.HasSuffix(argument, "'") {
      r := ParseConstString(name, argument);
    } else if GoStrings.IsNumber(argument) {
      r := WrapInSlice(ParseConstNumber(name, argument));
    } else {
      r := Success([ParseAddressConstantDeclaration(name, argument)]);
    }
  }

  class AsmTranslator {
    var instructions: seq<ParsedInstruction>
    var currentIndex: int

    /** The next index is the number of cells so far, and every cell carries its position. */
    ghost predicate Valid()
      reads this
    {
      && currentIndex == |instructions|
      && forall k :: 0 <= k < |instructions| ==> instructions[k].index == k
    }

    /** NewTranslator. */
    constructor ()
      ensures Valid() && instructions == []
    {
      instructions := [];
      currentIndex := 0;
    }

    /** addInstruction (and addConstant): the cell gets the next index and goes at the end. */
    method AddInstruction(instruction: ParsedInstruction)
      requires Valid()
      modifies this
      ensures Valid()
      ensures instructions == old(instructions) + [instruction.(index := old(currentIndex))]
    {
      instructions := instructions + [instruction.(index := currentIndex)];
      currentIndex := currentIndex + 1;
    }

    /** The loop of parseLine over a constant's cells: each gets the line's meta information and the next index. */
    method AddCells(cells: seq<ParsedInstruction>, meta: Isa.TermMetaInfo)
      requires Valid()
      modifies this
      ensures Valid()
      ensures instructions == old(instructions) + Indexed(WithMeta(cells, meta), |old(instructions)|)
    {
      for i := 0 to |cells|
        invariant Valid()
        invariant instructions == old(instructions) + Indexed(WithMeta(cells, meta)[..i], |old(instructions)|)
      {
        assert WithMeta(cells, meta)[..i + 1] == WithMeta(cells, meta)[..i] + [cells[i].(metaInfo := meta)];
        IndexedAppend(WithMeta(cells, meta)[..i], [cells[i].(metaInfo := meta)], |old(instructions)|);
        AddInstruction(cells[i].(metaInfo := meta));
      }
      assert WithMeta(cells, meta)[..|cells|] == WithMeta(cells, meta);
    }

    /** parseLine: the line's cells are appended; on an error or a panic nothing is. */
    method ParseLine(line: string, lineNumber: int) returns (status: Status)
      requires Valid()
      modifies this
      ensures Valid()
      ensures var o := LineTerms(line, lineNumber);
        && status == StatusOf(o)
        && instructions == old(instructions) + (if o.Success? then Indexed(o.value, |old(instructions)|) else [])
    {
      var parts := GoStrings.Fields(line);
      LineTermsCases(line, lineNumber, parts);
      if |parts| == 0 {
        assert Indexed([], |instructions|) == [];
        return Done;
      }
      if parts[0] == "word:" {
        return Failed(ParseError(ReservedWordMessage, line, 0));
      }
      status := ParseDeclaration(parts, line, lineNumber);
    }

    /** The rest of parseLine: a constant declaration or an instruction. */
    method ParseDeclaration(parts: seq<string>, line: string, lineNumber: int) returns (status: Status)
      requires Valid() && |parts| >= 1
      modifies this
      ensures Valid()
      ensures var o := DeclarationTerms(parts, line, lineNumber);
        && status == StatusOf(o)
        && instructions == old(instructions) + (if o.Success? then Indexed(o.value, |old(instructions)|) else [])
    {
      var isConstant := AsmUtils.IsConstantDeclaration(parts);
      if isConstant.Err? {
        return Panicked(isConstant.error);
      }
      if isConstant.value {
        status := ParseConstantLine(parts, line, lineNumber);
      } else {
        var meta := Isa.TermMetaInfo(lineNumber, line);
        var declared := ParseInstructionDeclaration(parts);
        // A lone label already stopped in IsConstantDeclaration, so an opcode field is present.
        assert declared.Success?;
        AddInstruction(declared.value.(metaInfo := meta));
        IndexedSingle(declared.value.(metaInfo := meta), |old(instructions)|);
        status := Done;
      }
    }

    /** The constant branch of parseLine: every cell is added with the line's meta information. */
    method ParseConstantLine(parts: seq<string>, line: string, lineNumber: int) returns (status: Status)
      requires Valid() && |parts| >= 1
      modifies this
      ensures Valid()
      ensures var o := ConstantLineTerms(parts, line, lineNumber);
        && status == StatusOf(o)
        && instructions == old(instructions) + (if o.Success? then Indexed(o.value, |old(instructions)|) else [])
    {
      var constants := ParseConstantDeclaration(parts);
      if constants.Fail? {
        return Failed(ParseError("failed to parse constant: " + constants.failure.message, line, lineNumber));
      }
      if constants.Panic? {
        return Panicked(constants.reason);
      }
      AddCells(constants.value, Isa.TermMetaInfo(lineNumber, line));
      status := Done;
    }

    /** One pass of the loop of ParseInstructions: line i without its comment, trimmed, numbered i + 1. */
    method ParseNextLine(lines: seq<string>, i: nat, ghost prior: seq<ParsedInstruction>) returns (status: Status)
      requires Valid() && i < |lines| && LinesTerms(lines, i).status == Done
      requires instructions == prior + Indexed(LinesTerms(lines, i).terms, |prior|)
      modifies this
      ensures Valid()
      ensures status == LinesTerms(lines, i + 1).status
      ensures instructions == prior + Indexed(LinesTerms(lines, i + 1).terms, |prior|)
    {
      var line := GoStrings.Split(lines[i], ';')[0];
      line := GoStrings.TrimSpace(line);
      ghost var before := instructions;
      status := ParseLine(line, i + 1);
      LinesTermsStep(prior, before, instructions, lines, i, LineTerms(line, i + 1));
    }

    /** ParseInstructions: the lines of the input in order; the first failure stops. */
    method ParseInstructions(input: string) returns (status: Status)
      requires Valid()
      modifies this
      ensures Valid()
      ensures status == ParseSpec(input).status
      ensures instructions == old(instructions) + Indexed(ParseSpec(input).terms, |old(instructions)|)
    {
      var lines := GoStrings.Split(input, '\n');
      for i := 0 to |lines|
        invariant Valid()
        invariant LinesTerms(lines, i).status == Done
        invariant instructions == old(instructions) + Indexed(LinesTerms(lines, i).terms, |old(instructions)|)
      {
        status := ParseNextLine(lines, i, old(instructions));
        if !status.Done? {
          LinesTermsStop(lines, i + 1, |lines|);
          return;
        }
      }
      status := Done;
    }

    /** labelToAddress: the index of the first cell with the label, or an error. */
    method LabelToAddress(name: string) returns (r: Result<int, Failure>)
      ensures r.Err? ==> r.error == Error(LabelNotFoundMessage(name))
      ensures r.Err? <==> forall k :: 0 <= k < |instructions| ==> instructions[k].termLabel != name
      ensures r.Ok? ==> FindLabel(instructions, name) == Some(r.value)
    {
      for i := 0 to |instructions|
        invariant forall j :: 0 <= j < i ==> instructions[j].termLabel != name
      {
        if instructions[i].termLabel == name {
          return Ok(instructions[i].index);
        }
      }
      r := Err(Error(LabelNotFoundMessage(name)));
    }

    /** inferOperand: no operand, the literal, or the resolved label. */
    method InferOperand(instruction: ParsedInstruction) returns (r: Outcome<Option<int>>)
      ensures r == InferOperandSpec(instructions, instruction)
    {
      match instruction.valueType
      case ValueTypeNone =>
        r := Success(None);
      case ValueTypeChar =>
        r := Success(Some(instruction.operand));
      case ValueTypeNumber =>
        r := Success(Some(instruction.operand));
      case ValueTypeAddress =>
        if instruction.labelOperand == "" {
          return Panic("label operand is empty: " + instruction.opcode);
        }
        var address := LabelToAddress(instruction.labelOperand);
        if address.Err? {
          return Fail(address.error);
        }
        r := Success(Some(address.value));
    }

    /** convertTermsToMachineCode: one term per cell, in order; the first failure stops. */
    method ConvertTermsToMachineCode() returns (r: Outcome<seq<Isa.MachineCodeTerm>>)
      ensures r == ConvertSpec(instructions, |instructions|)
    {
      var code: seq<Isa.MachineCodeTerm> := [];
      for i := 0 to |instructions|
        invariant ConvertSpec(instructions, i) == Success(code)
      {
        assert ConvertSpec(instructions, i + 1) == ConvertCell(instructions, i + 1);
        var instruction := instructions[i];
        var termLabel: Option<string> := None;
        if instruction.termLabel != "" {
          termLabel := Some(instruction.termLabel);
        }
        var operand := InferOperand(instruction);
        if operand.Fail? {
          ConvertStop(instructions, i + 1, |instructions|);
          return Fail(operand.failure);
        }
        if operand.Panic? {
          ConvertStop(instructions, i + 1, |instructions|);
          return Panic(operand.reason);
        }
        var opcode := Isa.GetOpcodeFromString(instruction.opcode);
        if opcode.None? {
          ConvertStop(instructions, i + 1, |instructions|);
          return Fail(Error(UnknownOpcodeMessage(instruction.opcode)));
        }
        var operandType := instruction.valueType;
        if operandType == Isa.ValueTypeAddress {
          operandType := Isa.ValueTypeNumber;
        }
        code := code + [Isa.MachineCodeTerm(instruction.index, termLabel, opcode.value, operand.value, operandType, instruction.metaInfo)];
      }
      r := Success(code);
    }

    /**
     * Translate: parse, renumber (which changes nothing), convert, find the
     * start. Any error comes with the empty program.
     */
    method Translate(input: string) returns (program: Isa.Program, status: Status)
      requires Valid()
      modifies this
      ensures Valid()
      ensures instructions == old(instructions) + Indexed(ParseSpec(input).terms, |old(instructions)|)
      ensures var o := TranslateSpec(old(instructions), input);
        && status == StatusOf(o)
        && program == (if o.Success? then o.value else Isa.EmptyProgram)
    {
      status := ParseInstructions(input);
      TranslateParts(old(instructions), input, ParseSpec(input));
      if !status.Done? {
        return Isa.EmptyProgram, status;
      }
      Renumber();
      program, status := Assemble();
    }

    /** The addIndicies step of Translate, which leaves the cells as they are. */
    method Renumber()
      modifies this
      ensures instructions == old(instructions) && currentIndex == old(currentIndex)
    {
      instructions := AsmUtils.AddIndices(instructions);
    }

    /** The end of Translate: convert the cells and find the start; any error comes with the empty program. */
    method Assemble() returns (program: Isa.Program, status: Status)
      ensures var o := AssembleSpec(instructions);
        && status == StatusOf(o)
        && program == (if o.Success? then o.value else Isa.EmptyProgram)
    {
      var code := ConvertTermsToMachineCode();
      if code.Fail? {
        return Isa.EmptyProgram, Failed(code.failure);
      }
      if code.Panic? {
        return Isa.EmptyProgram, Panicked(code.reason);
      }
      var withStart := AddStartAddress(code.value);
      if withStart.Fail? {
        return Isa.EmptyProgram, Failed(withStart.failure);
      }
      program, status := withStart.value, Done;
    }
  }
}
