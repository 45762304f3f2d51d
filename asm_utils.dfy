/** The field predicates and the index pass of pkg/translator/asm_utils.go. */
module AsmUtils {
  import opened Wrappers
  import GoStrings
  import opened ParsedTerms

  /** hasLabel: the first field ends with ':' (the source indexes the first field, so there must be one). */
  function HasLabel(parts: seq<string>): (r: bool)
    requires |parts| >= 1
    ensures r <==> |parts[0]| > 0 && parts[0][|parts[0]| - 1] == ':'
  {
    GoStrings.HasSuffix(parts[0], ":")
  }

  /**
   * isConstantDeclaration: a label followed by the field "word:". A lone
   * label makes the source index a second field that is not there, which is
   * a Go panic (Err here).
   */
  function IsConstantDeclaration(parts: seq<string>): (r: Result<bool, string>)
    requires |parts| >= 1
    ensures r.Err? <==> HasLabel(parts) && |parts| == 1
    ensures r.Err? ==> r.error == "index out of range"
    ensures r == Ok(true) <==> HasLabel(parts) && |parts| >= 2 && parts[1] == "word:"
  {
    if !HasLabel(parts) then Ok(false)
    else if |parts| < 2 then Err("index out of range")
    else Ok(parts[1] == "word:")
  }

  /**
   * addIndicies: the loop assigns each index to the loop variable, a copy,
   * so the slice comes back unchanged.
   */
  method AddIndices(instructions: seq<ParsedInstruction>) returns (r: seq<ParsedInstruction>)
    ensures r == instructions
  {
    for i := 0 to |instructions|
    {
      var instruction := instructions[i];
      instruction := instruction.(index := i);
    }
    r := instructions;
  }
}
