/**
 * What the assembler of pkg/translator/translator.go guarantees about its
 * output, proved from the functions of TranslatorSpec: what each converted
 * term holds, that the "label operand is empty" panic cannot be reached from
 * parsed source, where the start address comes from, and that the first
 * failing line decides the outcome.
 */
module TranslatorProperties {
  import opened Wrappers
  import Isa
  import GoStrings
  import AsmUtils
  import opened ParsedTerms
  import opened TranslatorSpec

  /** A cell whose operand is a label names a label. */
  predicate NamesLabel(c: ParsedInstruction)
  {
    c.valueType == Isa.ValueTypeAddress ==> c.labelOperand != ""
  }

  /** A field has no white space, so TrimSpace leaves it as it is. */
  lemma TrimSpaceOfField(f: string)
    requires GoStrings.NoneIn(f, GoStrings.IsSpace)
    ensures GoStrings.TrimSpace(f) == f
  {
    var l := GoStrings.TrimLeft(f, GoStrings.IsSpace);
    if |f| > 0 {
      assert !GoStrings.IsSpace(f[0]);
    }
    assert l == f;
    var r := GoStrings.TrimRight(l, GoStrings.IsSpace);
    if |l| > 0 {
      assert !GoStrings.IsSpace(l[|l| - 1]);
    }
    assert r == l;
  }

  /** Every cell a constant declaration yields that refers to a label names one. */
  lemma ConstantCellsNameLabels(parts: seq<string>)
    requires |parts| >= 3 && GoStrings.TrimSpace(parts[2]) != ""
    requires ConstantDeclarationSpec(parts).Success?
    ensures forall c :: c in ConstantDeclarationSpec(parts).value ==> NamesLabel(c)
  {
    var name := LabelName(parts[0]);
    var argument := GoStrings.TrimSpace(parts[2]);
    if GoStrings.HasPrefix(argument, "'") && GoStrings.HasSuffix(argument, "'") {
      StringCellsAreChars(name, argument);
    } else if GoStrings.IsNumber(argument) {
      NumberCellNamesNoLabel(ParseConstNumber(name, argument));
    }
  }

  /** A number constant's cell is a Number cell. */
  lemma NumberCellNamesNoLabel(o: Outcome<ParsedInstruction>)
    requires o.Success? ==> o.value.valueType == Isa.ValueTypeNumber
    requires WrapInSlice(o).Success?
    ensures forall c :: c in WrapInSlice(o).value ==> NamesLabel(c)
  {
  }

  /** A string constant's cells are all Char cells, so none refers to a label. */
  lemma StringCellsAreChars(name: string, value: string)
    requires ConstStringSpec(name, value).Success?
    ensures forall c :: c in ConstStringSpec(name, value).value ==> NamesLabel(c)
  {
    var cells := StringCells(name, GoStrings.TrimQuotes(value));
    assert forall k :: 0 <= k < |cells| ==> cells[k].valueType == Isa.ValueTypeChar;
  }

  /** The cells of a constant line carry the declaration's labels. */
  lemma ConstantLineNamesLabels(parts: seq<string>, line: string, lineNumber: int)
    requires |parts| >= 1
    requires forall f :: f in parts ==> |f| > 0 && GoStrings.NoneIn(f, GoStrings.IsSpace)
    requires ConstantLineTerms(parts, line, lineNumber).Success?
    ensures forall c :: c in ConstantLineTerms(parts, line, lineNumber).value ==> NamesLabel(c)
  {
    assert parts[2] in parts;
    TrimSpaceOfField(parts[2]);
    ConstantCellsNameLabels(parts);
    var cells := ConstantDeclarationSpec(parts).value;
    var meta := Isa.TermMetaInfo(lineNumber, line);
    forall c | c in WithMeta(cells, meta)
      ensures NamesLabel(c)
    {
      var k :| 0 <= k < |cells| && c == WithMeta(cells, meta)[k];
      assert cells[k] in cells;
    }
  }

  /** An instruction line's operand, when it has one, is a whole field. */
  lemma InstructionLineNamesLabels(parts: seq<string>, meta: Isa.TermMetaInfo)
    requires |parts| >= 1
    requires forall f :: f in parts ==> |f| > 0
    requires InstructionLineTerms(parts, meta).Success?
    ensures forall c :: c in InstructionLineTerms(parts, meta).value ==> NamesLabel(c)
  {
    var rest := if AsmUtils.HasLabel(parts) then parts[1..] else parts;
    if |rest| > 1 {
      assert rest[1] in parts;
    }
  }

  /** Every cell a parsed line yields that refers to a label names one: its operand is a non-empty field. */
  lemma LineCellsNameLabels(line: string, lineNumber: int)
    requires LineTerms(line, lineNumber).Success?
    ensures forall c :: c in LineTerms(line, lineNumber).value ==> NamesLabel(c)
  {
    var parts := GoStrings.Fields(line);
    LineTermsCases(line, lineNumber, parts);
    if |parts| > 0 && parts[0] != "word:" {
      DeclarationNamesLabels(parts, line, lineNumber);
    }
  }

  /** The cells of a declaration line: a constant's or an instruction's, each naming its labels. */
  lemma DeclarationNamesLabels(parts: seq<string>, line: string, lineNumber: int)
    requires |parts| >= 1
    requires forall f :: f in parts ==> |f| > 0 && GoStrings.NoneIn(f, GoStrings.IsSpace)
    requires DeclarationTerms(parts, line, lineNumber).Success?
    ensures forall c :: c in DeclarationTerms(parts, line, lineNumber).value ==> NamesLabel(c)
  {
    match AsmUtils.IsConstantDeclaration(parts)
    case Ok(true) => ConstantLineNamesLabels(parts, line, lineNumber);
    case Ok(false) => InstructionLineNamesLabels(parts, Isa.TermMetaInfo(lineNumber, line));
    case Err(_) =>
  }

  /** Every cell the parse of the first i lines yields that refers to a label names one. */
  predicate CellsNameLabels(lines: seq<string>, i: nat)
    requires i <= |lines|
  {
    forall c :: c in LinesTerms(lines, i).terms ==> NamesLabel(c)
  }

  /** Parsing one more line keeps every label operand non-empty. */
  lemma ParsedCellsStep(lines: seq<string>, i: nat)
    requires i < |lines| && CellsNameLabels(lines, i)
    ensures CellsNameLabels(lines, i + 1)
  {
    if LinesTerms(lines, i).status.Done? {
      var o := LineTerms(CleanLine(lines[i]), i + 1);
      if o.Success? {
        LineCellsNameLabels(CleanLine(lines[i]), i + 1);
        LinesTermsNext(lines, i);
      } else {
        LinesTermsFail(lines, i, o);
      }
    } else {
      LinesTermsStop(lines, i, i + 1);
    }
  }

  /** From line i to the last, label operands stay non-empty. */
  lemma {:induction false} ParsedCellsFrom(lines: seq<string>, i: nat)
    requires i <= |lines| && CellsNameLabels(lines, i)
    ensures CellsNameLabels(lines, |lines|)
    decreases |lines| - i
  {
    if i < |lines| {
      ParsedCellsStep(lines, i);
      ParsedCellsFrom(lines, i + 1);
    }
  }

  /** Every cell the parse of all lines yields that refers to a label names one. */
  lemma ParsedCellsNameLabels(lines: seq<string>)
    ensures CellsNameLabels(lines, |lines|)
  {
    ParsedCellsFrom(lines, 0);
  }

  /**
   * What convertTermsToMachineCode makes of one cell: same index, meta
   * information and label (an empty label becomes no label), the opcode
   * whose mnemonic the cell names, and the operand by value type, a label
   * resolved to the index of the first cell that carries it.
   */
  predicate Converted(instructions: seq<ParsedInstruction>, c: ParsedInstruction, t: Isa.MachineCodeTerm)
  {
    && t.index == c.index
    && t.termInfo == c.metaInfo
    && (t.termLabel.None? <==> c.termLabel == "")
    && (t.termLabel.Some? ==> t.termLabel.value == c.termLabel)
    && Isa.Mnemonic(t.opcode) == c.opcode
    && t.operandType == (if c.valueType == Isa.ValueTypeAddress then Isa.ValueTypeNumber else c.valueType)
    && (c.valueType == Isa.ValueTypeNone ==> t.operand.None?)
    && (c.valueType == Isa.ValueTypeChar || c.valueType == Isa.ValueTypeNumber ==> t.operand == Some(c.operand))
    && (c.valueType == Isa.ValueTypeAddress ==> t.operand.Some? && FindLabel(instructions, c.labelOperand) == t.operand)
  }

  /**
   * One cell: converted as above, or an error exactly when the mnemonic is
   * unknown or the label is nowhere, or a panic exactly when a label operand
   * is empty.
   */
  lemma TermShape(instructions: seq<ParsedInstruction>, c: ParsedInstruction)
    ensures TermSpec(instructions, c).Success? ==> Converted(instructions, c, TermSpec(instructions, c).value)
    ensures TermSpec(instructions, c).Panic? <==> c.valueType == Isa.ValueTypeAddress && c.labelOperand == ""
    ensures TermSpec(instructions, c).Fail? <==>
      !(c.valueType == Isa.ValueTypeAddress && c.labelOperand == "")
      && ((c.valueType == Isa.ValueTypeAddress && FindLabel(instructions, c.labelOperand).None?)
          || Isa.GetOpcodeFromString(c.opcode).None?)
  {
  }

  /** A successful conversion of n cells extends the successful conversion of the first n - 1. */
  lemma ConvertSuccessStep(instructions: seq<ParsedInstruction>, n: nat)
    requires 0 < n <= |instructions| && ConvertSpec(instructions, n).Success?
    ensures ConvertSpec(instructions, n - 1).Success?
    ensures TermSpec(instructions, instructions[n - 1]).Success?
    ensures ConvertSpec(instructions, n).value
      == ConvertSpec(instructions, n - 1).value + [TermSpec(instructions, instructions[n - 1]).value]
  {
    assert ConvertSpec(instructions, n) == ConvertCell(instructions, n);
  }

  /** A successful conversion has one term per cell, the term that cell converts to. */
  lemma ConvertTerms(instructions: seq<ParsedInstruction>, n: nat)
    requires n <= |instructions| && ConvertSpec(instructions, n).Success?
    ensures |ConvertSpec(instructions, n).value| == n
    ensures forall k :: 0 <= k < n ==> TermSpec(instructions, instructions[k]) == Success(ConvertSpec(instructions, n).value[k])
  {
    forall k | 0 <= k < n
      ensures TermSpec(instructions, instructions[k]) == Success(ConvertSpec(instructions, n).value[k])
    {
      ConvertTermAt(instructions, n, k);
    }
  }

  /** The k-th term of a successful conversion is the term of the k-th cell. */
  lemma {:induction false} ConvertTermAt(instructions: seq<ParsedInstruction>, n: nat, k: nat)
    requires k < n <= |instructions| && ConvertSpec(instructions, n).Success?
    ensures TermSpec(instructions, instructions[k]) == Success(ConvertSpec(instructions, n).value[k])
    decreases n
  {
    ConvertSuccessStep(instructions, n);
    var shorter := ConvertSpec(instructions, n - 1).value;
    var term := TermSpec(instructions, instructions[n - 1]).value;
    assert ConvertSpec(instructions, n).value == shorter + [term];
    if k < n - 1 {
      ConvertTermAt(instructions, n - 1, k);
      assert (shorter + [term])[k] == shorter[k];
    } else {
      assert (shorter + [term])[k] == term;
    }
  }

  /** A successful conversion has one term per cell, each converted from its cell. */
  lemma ConvertShape(instructions: seq<ParsedInstruction>, n: nat)
    requires n <= |instructions| && ConvertSpec(instructions, n).Success?
    ensures |ConvertSpec(instructions, n).value| == n
    ensures forall k :: 0 <= k < n ==> Converted(instructions, instructions[k], ConvertSpec(instructions, n).value[k])
  {
    ConvertTerms(instructions, n);
    forall k | 0 <= k < n
      ensures Converted(instructions, instructions[k], ConvertSpec(instructions, n).value[k])
    {
      TermShape(instructions, instructions[k]);
    }
  }

  /** When every label operand is non-empty, the conversion never panics. */
  lemma {:induction false} ConvertNeverPanics(instructions: seq<ParsedInstruction>, n: nat)
    requires n <= |instructions|
    requires forall k :: 0 <= k < |instructions| ==> NamesLabel(instructions[k])
    ensures !ConvertSpec(instructions, n).Panic?
  {
    if n > 0 {
      ConvertNeverPanics(instructions, n - 1);
      TermShape(instructions, instructions[n - 1]);
      assert ConvertSpec(instructions, n) == ConvertCell(instructions, n);
    }
  }

  /**
   * Translate panics exactly when parsing panicked: the "label operand is
   * empty" panic of inferOperand cannot be reached from parsed source.
   */
  lemma TranslatePanicsOnlyWhileParsing(prior: seq<ParsedInstruction>, input: string)
    requires forall k :: 0 <= k < |prior| ==> NamesLabel(prior[k])
    ensures TranslateSpec(prior, input).Panic? <==> ParseSpec(input).status.Panicked?
  {
    var p := ParseSpec(input);
    if p.status.Done? {
      var lines := GoStrings.Split(input, '\n');
      ParsedCellsNameLabels(lines);
      var all := prior + Indexed(p.terms, |prior|);
      forall k | 0 <= k < |all|
        ensures NamesLabel(all[k])
      {
        if k >= |prior| {
          assert p.terms[k - |prior|] in p.terms;
        }
      }
      ConvertNeverPanics(all, |all|);
    }
  }

  /** k is the position of the first cell labelled "start". */
  predicate FirstStart(cells: seq<ParsedInstruction>, k: int)
  {
    && 0 <= k < |cells| && cells[k].termLabel == "start"
    && forall j :: 0 <= j < k ==> cells[j].termLabel != "start"
  }

  /** Numbering cells leaves their labels, so the first "start" stays where it is. */
  lemma FirstStartIndexed(cells: seq<ParsedInstruction>, start: int, k: int)
    requires FirstStart(Indexed(cells, start), k)
    ensures FirstStart(cells, k)
  {
    forall j | 0 <= j <= k
      ensures cells[j].termLabel == Indexed(cells, start)[j].termLabel
    {
    }
  }

  /**
   * Converting cells that carry their positions as indices and finding the
   * start: one term per cell, no Address operand left, and the start is the
   * position of the first cell labelled "start".
   */
  lemma AssembleStart(all: seq<ParsedInstruction>, program: Isa.Program)
    requires forall k :: 0 <= k < |all| ==> all[k].index == k
    requires AssembleSpec(all) == Success(program)
    ensures |program.instructions| == |all|
    ensures FirstStart(all, program.startAddress)
    ensures forall t :: t in program.instructions ==> t.operandType != Isa.ValueTypeAddress
  {
    ConvertShape(all, |all|);
    var code := ConvertSpec(all, |all|).value;
    assert program == AddStartAddress(code).value;
    forall k | 0 <= k < |code|
      ensures IsStart(code[k]) <==> all[k].termLabel == "start"
      ensures code[k].index == k
      ensures code[k].operandType != Isa.ValueTypeAddress
    {
      assert Converted(all, all[k], code[k]);
    }
  }

  /**
   * A program translated by a fresh translator has one term per parsed cell,
   * no Address operand left, and starts at the position of the first cell
   * labelled "start".
   */
  lemma TranslateStart(input: string, program: Isa.Program)
    requires TranslateSpec([], input) == Success(program)
    ensures |program.instructions| == |ParseSpec(input).terms|
    ensures FirstStart(ParseSpec(input).terms, program.startAddress)
    ensures forall t :: t in program.instructions ==> t.operandType != Isa.ValueTypeAddress
  {
    var p := ParseSpec(input);
    TranslateParts([], input, p);
    FreshAssembleStart(p.terms, program);
  }

  /** AssembleStart for the cells of a fresh translator, numbered from 0. */
  lemma FreshAssembleStart(terms: seq<ParsedInstruction>, program: Isa.Program)
    requires AssembleSpec([] + Indexed(terms, 0)) == Success(program)
    ensures |program.instructions| == |terms|
    ensures FirstStart(terms, program.startAddress)
    ensures forall t :: t in program.instructions ==> t.operandType != Isa.ValueTypeAddress
  {
    var all := [] + Indexed(terms, 0);
    assert all == Indexed(terms, 0);
    AssembleStart(all, program);
    FirstStartIndexed(terms, 0, program.startAddress);
  }

  /** The first line that does not parse decides the outcome; the cells of the lines before it are kept. */
  lemma FirstFailureStops(lines: seq<string>, i: nat)
    requires i < |lines| && LinesTerms(lines, i).status.Done?
    requires !LineTerms(CleanLine(lines[i]), i + 1).Success?
    ensures LinesTerms(lines, |lines|).terms == LinesTerms(lines, i).terms
    ensures LinesTerms(lines, |lines|).status == StatusOf(LineTerms(CleanLine(lines[i]), i + 1))
  {
    LinesTermsFail(lines, i, LineTerms(CleanLine(lines[i]), i + 1));
    LinesTermsStop(lines, i + 1, |lines|);
  }

  /** A line whose first field is "word:" stops the parse with a ParseError reported at line 0. */
  lemma ReservedWordStops(input: string, i: nat)
    requires var lines := GoStrings.Split(input, '\n');
      && i < |lines| && LinesTerms(lines, i).status.Done?
      && var parts := GoStrings.Fields(CleanLine(lines[i])); |parts| > 0 && parts[0] == "word:"
    ensures var lines := GoStrings.Split(input, '\n');
      ParseSpec(input).status == Failed(ParseError(ReservedWordMessage, CleanLine(lines[i]), 0))
  {
    var lines := GoStrings.Split(input, '\n');
    FirstFailureStops(lines, i);
  }

  /**
   * A quoted string: one Char cell per character between the quotes, the
   * label on the first, then a 0 terminator; nothing between the quotes is
   * a panic.
   */
  lemma ConstStringLayout(name: string, value: string)
    ensures ConstStringSpec(name, value).Panic? <==> |GoStrings.TrimQuotes(value)| == 0
    ensures ConstStringSpec(name, value).Success? ==>
      var cells := ConstStringSpec(name, value).value;
      var v := GoStrings.TrimQuotes(value);
      && |cells| == |v| + 1
      && cells[0].termLabel == name
      && (forall k :: 1 <= k < |cells| ==> cells[k].termLabel == "")
      && (forall k :: 0 <= k < |v| ==> cells[k].operand == v[k] as int)
      && cells[|v|].operand == 0
      && forall k :: 0 <= k < |cells| ==> cells[k].valueType == Isa.ValueTypeChar && cells[k].opcode == Isa.Mnemonic(Isa.Nop)
  {
    var v := GoStrings.TrimQuotes(value);
    if |v| > 0 {
      var cells := StringCells(name, v);
      assert ConstStringSpec(name, value) == Success(cells);
    }
  }
}
