/** The IR-to-x86 backend: it re-reads the textual IR produced by the front end, keeps a
    symbol table from IR names (`[name]`) to an operand location, and lowers each IR
    instruction through a fixed text template.

    A Rust panic (indexing past the end of a split) is the `None` result. */
module X86 {
  import opened Wrappers
  import opened Strings

  /** The value kinds the IR distinguishes. */
  datatype Variable3ACType = Int | Bool | String

  /** What the table records for an IR name: the operand text, whether it outlives a
      function, and its kind. */
  datatype SemanticSymbol = SemanticSymbol(location: string, global: bool, symType: Variable3ACType)

  type SymbolTable = map<string, SemanticSymbol>

  const EndGlobals: string := "[END GLOBALS]"
  const MagicPrepend: string := "\n\tcallq magic\n"
  const ExitCode: string := "\n\tmovq $60,\t%rax\n\tmovq $1,\t%rdi\n\t\n\tsyscall"
  const PrologueHead: string := "\tpushq %rbp\n\tmovq %rsp,\t%rbp\n\taddq $16,\t%rbp\n\tsubq $"
  const PrologueTail: string := ",\t%rsp"
  const EpilogueHead: string := "\taddq $"
  const EpilogueTail: string := ",\t%rsp\n\tpopq %rbp\n\tretq"

  /** `function_prologue`: saves `%rbp` and reserves `numLocs * 8` bytes. */
  function FunctionPrologue(numLocs: nat): string {
    PrologueHead + NatToString(numLocs * 8) + PrologueTail
  }

  /** `function_epilogue`: releases `numLocs * 8` bytes and returns. */
  function FunctionEpilogue(numLocs: nat): string {
    EpilogueHead + NatToString(numLocs * 8) + EpilogueTail
  }

  /** The prologue reserves and the epilogue releases the same byte count, 8 per local:
      the number can be read back out of both texts. */
  lemma FrameBalanced(numLocs: nat)
    ensures var p := FunctionPrologue(numLocs);
      |PrologueHead| + |PrologueTail| <= |p|
      && ParseNat(p[|PrologueHead|..|p| - |PrologueTail|]) == Some(numLocs * 8)
    ensures var e := FunctionEpilogue(numLocs);
      |EpilogueHead| + |EpilogueTail| <= |e|
      && ParseNat(e[|EpilogueHead|..|e| - |EpilogueTail|]) == Some(numLocs * 8)
  {
    var d := NatToString(numLocs * 8);
    ParseNatToString(numLocs * 8);
    var p := FunctionPrologue(numLocs);
    assert p[|PrologueHead|..|p| - |PrologueTail|] == d;
    var e := FunctionEpilogue(numLocs);
    assert e[|EpilogueHead|..|e| - |EpilogueTail|] == d;
  }

  /** `get_operation_quad`: the x86 mnemonic of an IR operator, `""` for an unknown one. */
  function GetOperationQuad(operation: string): (r: string)
    ensures r == "notq" <==> operation == "NEG64" || operation == "NOT64"
    ensures r == "" <==> operation !in {"NEG64", "ADD64", "SUB64", "MULT64", "DIV64", "AND64", "OR64", "NOT64"}
  {
    match operation
    case "NEG64" => "notq"
    case "ADD64" => "addq"
    case "SUB64" => "subq"
    case "MULT64" => "imulq"
    case "DIV64" => "idivq"
    case "AND64" => "andq"
    case "OR64" => "orq"
    case "NOT64" => "notq"
    case _ => ""
  }

  predicate IsCompareOp(op: string) {
    op in {"EQ64", "NEQ64", "LT64", "GT64", "GTE64", "LTE64"}
  }

  /** The condition-code suffix of `set<cc>` for a comparison, as `translate_compare`
      chooses it. */
  function CompareSuffix(op: string): (r: string)
    ensures r != "" <==> IsCompareOp(op)
  {
    match op
    case "EQ64" => "e"
    case "NEQ64" => "ne"
    case "LT64" => "l"
    case "GT64" => "g"
    case "GTE64" => "ge"
    case "LTE64" => "le"
    case _ => ""
  }

  /** Reads a condition-code suffix back to its IR comparison; the inverse of
      `CompareSuffix` on comparisons. */
  function CompareOfSuffix(suffix: string): Option<string> {
    match suffix
    case "e" => Some("EQ64")
    case "ne" => Some("NEQ64")
    case "l" => Some("LT64")
    case "g" => Some("GT64")
    case "ge" => Some("GTE64")
    case "le" => Some("LTE64")
    case _ => None
  }

  /** Distinct comparisons get distinct suffixes. */
  lemma CompareSuffixRoundTrip(op: string)
    requires IsCompareOp(op)
    ensures CompareOfSuffix(CompareSuffix(op)) == Some(op)
  {
  }

  /** `get_loc`: a table hit gives the stored location and nothing to prepend; the three
      reserved words have fixed operands, `24Kmagic` needing a call to `magic` first; any
      other name gives an empty operand. */
  function GetLoc(table: SymbolTable, name: string): (r: (string, string))
    ensures name in table ==> r == ("", table[name].location)
    ensures r.0 != "" <==> name !in table && name == "24Kmagic"
    ensures r.0 != "" ==> r == (MagicPrepend, "%rdi")
    ensures name !in table ==> (r.1 == "" <==> name !in {"24Kmagic", "true", "false"})
    ensures name !in table && name == "true" ==> r.1 == "$1"
    ensures name !in table && name == "false" ==> r.1 == "$0"
  {
    if name in table then ("", table[name].location)
    else if name == "24Kmagic" then (MagicPrepend, "%rdi")
    else if name == "true" then ("", "$1")
    else if name == "false" then ("", "$0")
    else ("", "")
  }

  /** `parse_loc`: an operand that reads as an `i32` becomes the immediate `$` followed by
      the token as written; anything else goes through `get_loc`. */
  function ParseLoc(table: SymbolTable, name: string): (r: (string, string))
    ensures ParseI32(name).Some? ==> r == ("", "$" + name)
    ensures ParseI32(name).None? ==> r == GetLoc(table, name)
  {
    match ParseI32(name)
    case Some(_) => ("", "$" + name)
    case None => GetLoc(table, name)
  }

  /** An IR name in brackets is never an integer, so it is always looked up. */
  lemma BracketedNameIsLookedUp(table: SymbolTable, name: string)
    requires |name| > 0 && name[0] == '['
    ensures ParseLoc(table, name) == GetLoc(table, name)
  {
  }

  /** An integer operand does not depend on the table. */
  lemma IntegerOperandIgnoresTable(t1: SymbolTable, t2: SymbolTable, name: string)
    requires ParseI32(name).Some?
    ensures ParseLoc(t1, name) == ParseLoc(t2, name)
    ensures GetType(t1, name) == GetType(t2, name) == Int
  {
  }

  /** `get_type`: the reserved words are booleans, integer literals are integers, table
      names have their recorded kind, and unknown names default to integers. */
  function GetType(table: SymbolTable, name: string): (r: Variable3ACType)
    ensures name in {"true", "false", "24Kmagic"} ==> r == Bool
    ensures name !in {"true", "false", "24Kmagic"} && ParseI32(name).Some? ==> r == Int
    ensures r == String ==> name in table && table[name].symType == String
    ensures name !in {"true", "false", "24Kmagic"} && ParseI32(name).None? ==>
      r == (if name in table then table[name].symType else Int)
  {
    if name == "true" || name == "false" || name == "24Kmagic" then Bool
    else match ParseI32(name)
      case Some(_) => Int
      case None => if name in table then table[name].symType else Int
  }

  /** `translate_compare` on the tokens `dest := a OP b`: moves both operands into
      registers and stores the flag through `set<cc>` as one byte. */
  function TranslateCompare(table: SymbolTable, ops: seq<string>): (r: Option<string>)
    ensures r.Some? <==> |ops| >= 5
    ensures r.Some? ==>
      Contains(r.value, "\tmovq " + ParseLoc(table, ops[2]).1 + ",\t%rax\n\tmovq " + ParseLoc(table, ops[4]).1 + ",\t%rbx\n")
      && Contains(r.value, "\tset" + CompareSuffix(ops[3]) + "\t\t%al\n")
      && EndsWith(r.value, "\tmovb %al,\t" + ParseLoc(table, Trim(ops[0])).1)
  {
    if |ops| < 5 then None
    else
      var (prepend1, src1) := ParseLoc(table, ops[2]);
      var (prepend2, src2) := ParseLoc(table, ops[4]);
      var (prepend3, dest) := ParseLoc(table, Trim(ops[0]));
      var load := "\tmovq " + src1 + ",\t%rax\n\tmovq " + src2 + ",\t%rbx\n";
      var flag := "\tset" + CompareSuffix(ops[3]) + "\t\t%al\n";
      var store := "\tmovb %al,\t" + dest;
      var pre := prepend1 + prepend2;
      FiveParts(pre, load, flag, prepend3, store);
      Some(pre + load + flag + prepend3 + store)
  }

  /** `translate_multdiv`: the one-operand `imulq`/`idivq` form on `%rbx`. */
  function TranslateMultdiv(table: SymbolTable, ops: seq<string>): (r: Option<string>)
    ensures r.Some? <==> |ops| >= 5
    ensures r.Some? ==>
      Contains(r.value, "\tmovq " + ParseLoc(table, Trim(ops[2])).1 + ",\t%rax\n\tmovq "
        + ParseLoc(table, Trim(ops[4])).1 + ",\t%rbx\n")
      && Contains(r.value, "\t" + GetOperationQuad(ops[3]) + "\t\t%rbx\n")
      && EndsWith(r.value, "\tmovq %rax,\t" + ParseLoc(table, Trim(ops[0])).1)
  {
    if |ops| < 5 then None
    else
      var (prepend1, src1) := ParseLoc(table, Trim(ops[2]));
      var (prepend2, src2) := ParseLoc(table, Trim(ops[4]));
      var (prepend3, dest) := ParseLoc(table, Trim(ops[0]));
      var load := "\tmovq " + src1 + ",\t%rax\n\tmovq " + src2 + ",\t%rbx\n";
      var op := "\t" + GetOperationQuad(ops[3]) + "\t\t%rbx\n";
      var store := "\tmovq %rax,\t" + dest;
      var pre := prepend1 + prepend2;
      FiveParts(pre, load, op, prepend3, store);
      Some(pre + load + op + prepend3 + store)
  }

  /** The copy arm of `translate_assign` (`dest := src`): an integer literal is moved as
      an immediate, anything else through `%rax`. */
  function TranslateCopy(table: SymbolTable, ops: seq<string>): (r: string)
    requires |ops| == 3
    ensures ParseI32(ops[2]).None? ==>
      (Contains(r, "\tmovq " + GetLoc(table, ops[2]).1 + ",\t%rax\n")
       && EndsWith(r, "\tmovq %rax,\t" + GetLoc(table, Trim(ops[0])).1))
  {
    var (_, dest) := GetLoc(table, Trim(ops[0]));
    match ParseI32(ops[2])
    case Some(x) => "\tmovq $" + IntToString(x) + ",\t" + dest
    case None =>
      var (prepend, src) := GetLoc(table, ops[2]);
      var load := "\tmovq " + src + ",\t%rax\n";
      var store := "\tmovq %rax,\t" + dest;
      ThreeParts(prepend, load, store);
      prepend + load + store
  }

  /** The unary arm of `translate_assign` (`dest := OP src`): the operator's mnemonic is
      applied to `%rax`. */
  function TranslateUnary(table: SymbolTable, ops: seq<string>): (r: string)
    requires |ops| == 4
    ensures Contains(r, "\tmovq " + ParseLoc(table, ops[3]).1 + ",\t%rax\n")
    ensures Contains(r, "\t" + GetOperationQuad(ops[2]) + " %rax\n")
    ensures EndsWith(r, "\tmovq %rax,\t" + GetLoc(table, Trim(ops[0])).1)
  {
    var (_, dest) := GetLoc(table, Trim(ops[0]));
    var (prepend, src) := ParseLoc(table, ops[3]);
    var load := "\tmovq " + src + ",\t%rax\n";
    var op := "\t" + GetOperationQuad(ops[2]) + " %rax\n";
    var store := "\tmovq %rax,\t" + dest;
    FourParts(prepend, load, op, store);
    prepend + load + op + store
  }

  /** The generic binary arm of `translate_assign` (`dest := a OP b`): the operator's
      two-operand mnemonic combines `%rbx` into `%rax`. */
  function TranslateBinary(table: SymbolTable, ops: seq<string>): (r: string)
    requires |ops| >= 5
    ensures Contains(r, "\tmovq " + ParseLoc(table, ops[2]).1 + ",\t%rax\n\tmovq "
      + ParseLoc(table, ops[4]).1 + ",\t%rbx\n")
    ensures Contains(r, "\t" + GetOperationQuad(ops[3]) + " %rbx,\t%rax\n")
    ensures EndsWith(r, "\tmovq %rax,\t" + ParseLoc(table, Trim(ops[0])).1)
  {
    var (prepend1, src1) := ParseLoc(table, ops[2]);
    var (prepend2, src2) := ParseLoc(table, ops[4]);
    var (prepend3, dest) := ParseLoc(table, Trim(ops[0]));
    var load := "\tmovq " + src1 + ",\t%rax\n\tmovq " + src2 + ",\t%rbx\n";
    var op := "\t" + GetOperationQuad(ops[3]) + " %rbx,\t%rax\n";
    var store := "\tmovq %rax,\t" + dest;
    var pre := prepend1 + prepend2;
    FiveParts(pre, load, op, prepend3, store);
    pre + load + op + prepend3 + store
  }

  /** `translate_assign`: split on spaces; 3 tokens is a copy, 4 a unary operation, more a
      binary one; 1 or 2 tokens index past the end. */
  function TranslateAssign(table: SymbolTable, statement: string): (r: Option<string>)
    ensures r.None? <==> |Split(statement, " ")| < 3
    ensures var ops := Split(statement, " ");
      (|ops| == 3 ==> r == Some(TranslateCopy(table, ops)))
      && (|ops| == 4 ==> r == Some(TranslateUnary(table, ops)))
    ensures var ops := Split(statement, " "); |ops| >= 5 ==>
      (IsCompareOp(ops[3]) ==> r == TranslateCompare(table, ops))
      && (ops[3] == "MULT64" || ops[3] == "DIV64" ==> r == TranslateMultdiv(table, ops))
      && (!IsCompareOp(ops[3]) && ops[3] != "MULT64" && ops[3] != "DIV64" ==>
            r == Some(TranslateBinary(table, ops)))
  {
    var ops := Split(statement, " ");
    if |ops| == 3 then Some(TranslateCopy(table, ops))
    else if |ops| == 4 then Some(TranslateUnary(table, ops))
    else if |ops| < 4 then None
    else if IsCompareOp(ops[3]) then TranslateCompare(table, ops)
    else if ops[3] == "MULT64" || ops[3] == "DIV64" then TranslateMultdiv(table, ops)
    else Some(TranslateBinary(table, ops))
  }

  /** A copy of an integer literal moves the parsed value as an immediate, rendered
      afresh: the immediate reads back as the same 32-bit value. */
  lemma AssignLiteralImmediate(table: SymbolTable, statement: string)
    requires var ops := Split(statement, " "); |ops| == 3 && ParseI32(ops[2]).Some?
    ensures var ops := Split(statement, " "); var x := ParseI32(ops[2]).value;
      TranslateAssign(table, statement) == Some("\tmovq $" + IntToString(x) + ",\t" + GetLoc(table, Trim(ops[0])).1)
      && ParseI32(IntToString(x)) == Some(x)
  {
    var ops := Split(statement, " ");
    ParseI32IntToString(ParseI32(ops[2]).value);
  }

  /** The re-rendering differs from the operand form `parse_loc` uses elsewhere, which keeps
      the token: `+007` is `$7` in a copy and `$+007` as an operand. */
  lemma LiteralForms(table: SymbolTable)
    ensures ParseI32("+007") == Some(7) && IntToString(7) == "7"
    ensures ParseLoc(table, "+007") == ("", "$+007")
  {
    assert "+007"[1..] == "007";
    assert "007"[..2] == "00" && "00"[..1] == "0" && "0"[..0] == [];
    assert DigitsValue("007") == 7;
    assert "$" + "+007" == "$+007";
  }

  /** The runtime routine `translate_write` calls for a value of kind `k`. */
  function PrintRoutine(k: Variable3ACType): string {
    match k
    case Bool => "printBool"
    case Int => "printInt"
    case String => "printString"
  }

  /** The runtime routine `translate_read` names for a value of kind `k`. */
  function ReadRoutine(k: Variable3ACType): string {
    match k
    case Bool => "getBool"
    case Int => "getInt"
    case String => "getString"
  }

  /** Distinct kinds name distinct routines, so the routine in the output gives back the
      operand's kind. */
  lemma RoutinesDistinct(a: Variable3ACType, b: Variable3ACType)
    ensures PrintRoutine(a) == PrintRoutine(b) <==> a == b
    ensures ReadRoutine(a) == ReadRoutine(b) <==> a == b
  {
  }

  /** `translate_write`: the operand goes to `%rdi` and the runtime printer for its kind
      is called. */
  function TranslateWrite(table: SymbolTable, statement: string): (r: Option<string>)
    ensures r.Some? <==> |Split(Trim(statement), " ")| >= 2
    ensures r.Some? ==> var tok := Split(Trim(statement), " ")[1];
      Contains(r.value, "\tmovq " + ParseLoc(table, tok).1 + ",\t%rdi\n")
      && EndsWith(r.value, "\tcallq " + PrintRoutine(GetType(table, tok)))
  {
    var toks := Split(Trim(statement), " ");
    if |toks| < 2 then None
    else
      var (prepend, loc) := ParseLoc(table, toks[1]);
      var load := "\tmovq " + loc + ",\t%rdi\n";
      var call := "\tcallq " + PrintRoutine(GetType(table, toks[1]));
      ThreeParts(prepend, load, call);
      Some(prepend + load + call)
  }

  /** `translate_read`: the same operand and kind lookup, producing the reader's call
      text (the call target and the destination are written in the order the source
      formats them: the operand is called and `%rax` is moved into the routine's name). */
  function TranslateRead(table: SymbolTable, statement: string): (r: Option<string>)
    ensures r.Some? <==> |Split(Trim(statement), " ")| >= 2
    ensures r.Some? ==> var tok := Split(Trim(statement), " ")[1];
      Contains(r.value, "\tcallq " + ParseLoc(table, tok).1 + "\n")
      && EndsWith(r.value, "\tmovq %rax,\t" + ReadRoutine(GetType(table, tok)) + "\n\t")
  {
    var toks := Split(Trim(statement), " ");
    if |toks| < 2 then None
    else
      var (prepend, loc) := ParseLoc(table, toks[1]);
      var call := "\tcallq " + loc + "\n";
      var store := "\tmovq %rax,\t" + ReadRoutine(GetType(table, toks[1])) + "\n\t";
      ThreeParts(prepend, call, store);
      Some(prepend + call + store)
  }

  /** `translate_if` on `IFZ p GOTO l`: tests the byte and jumps to `l` when it is 0. */
  function TranslateIf(table: SymbolTable, statement: string): (r: Option<string>)
    ensures r.Some? <==> |Split(Trim(statement), " ")| >= 4
    ensures r.Some? ==> var toks := Split(Trim(statement), " ");
      var t := r.value; |toks[3]| <= |t| && t[|t| - |toks[3]|..] == toks[3]
  {
    var toks := Split(Trim(statement), " ");
    if |toks| < 4 then None
    else
      var (prepend, pred) := ParseLoc(table, toks[1]);
      Some(prepend + "\tmovb " + pred + ",\t%al\n\tcmpb $0,\t%al\n\tje\t\t" + toks[3])
  }

  /** `translate_statement`: the first keyword the line contains, in the order `:=`,
      `nop`, `leave`, `WRITE`, `READ`, `IFZ`, `goto`, decides the template; a line with
      none of them produces nothing. */
  function TranslateStatement(table: SymbolTable, statement: string, numLocals: nat): (r: Option<string>)
    ensures Contains(statement, ":=") ==> r == TranslateAssign(table, statement)
    ensures !Contains(statement, ":=") && Contains(statement, "nop") ==> r == Some(statement)
    ensures (forall k :: k in StatementKeywords ==> !Contains(statement, k)) ==> r == Some("")
    ensures ((forall k :: k in {":=", "nop", "leave"} ==> !Contains(statement, k)) &&
      Contains(statement, "WRITE"))
      ==> r == TranslateWrite(table, statement)
    ensures ((forall k :: k in {":=", "nop", "leave", "WRITE"} ==> !Contains(statement, k)) &&
      Contains(statement, "READ"))
      ==> r == TranslateRead(table, statement)
    ensures ((forall k :: k in {":=", "nop", "leave", "WRITE", "READ"} ==> !Contains(statement, k)) &&
      Contains(statement, "IFZ"))
      ==> r == TranslateIf(table, statement)
  {
    if Contains(statement, ":=") then TranslateAssign(table, statement)
    else if Contains(statement, "nop") then Some(statement)
    else if Contains(statement, "leave") then
      Some(Split(statement, ":")[0] + ":" + FunctionEpilogue(numLocals))
    else if Contains(statement, "WRITE") then TranslateWrite(table, statement)
    else if Contains(statement, "READ") then TranslateRead(table, statement)
    else if Contains(statement, "IFZ") then TranslateIf(table, statement)
    else if Contains(statement, "goto") then
      var parts := Split(statement, " ");
      if |parts| < 2 then None else Some("\tjmp\t\t" + parts[1])
    else Some("")
  }

  const StatementKeywords: set<string> := {":=", "nop", "leave", "WRITE", "READ", "IFZ", "goto"}

  /** A `leave` line becomes its label followed by the epilogue for the frame size. */
  lemma LeaveEmitsEpilogue(table: SymbolTable, statement: string, numLocals: nat)
    requires Contains(statement, "leave")
    requires forall k :: k in {":=", "nop"} ==> !Contains(statement, k)
    ensures TranslateStatement(table, statement, numLocals) ==
      Some(Split(statement, ":")[0] + ":" + FunctionEpilogue(numLocals))
    ensures JoinSplitHead(statement)
  {
    JoinSplit(statement, ":");
  }

  /** The label kept for a `leave` line is a prefix of the line. */
  predicate JoinSplitHead(statement: string) {
    Split(statement, ":")[0] <= statement
  }

  /** A `goto` line jumps to its second space-separated token. */
  lemma GotoJumpsToTarget(table: SymbolTable, statement: string, numLocals: nat)
    requires Contains(statement, "goto")
    requires forall k :: k in {":=", "nop", "leave", "WRITE", "READ", "IFZ"} ==> !Contains(statement, k)
    ensures var parts := Split(statement, " ");
      |parts| >= 2 ==> TranslateStatement(table, statement, numLocals) == Some("\tjmp\t\t" + parts[1])
  {
  }

  /** The table key a line of the globals section is stored under. */
  function GlobalKey(line: string): string {
    if Contains(line, " ") then "[" + SplitOnce(line, ' ').value.0 + "]"
    else "[" + Split(line, "-")[0] + "]"
  }

  /** What one line of the globals section adds: the assembler line, the table key and the
      symbol. A line with a space is a string constant `label text`; any other line is
      `name-type`, and one without `-` indexes past the end. */
  function GlobalEntry(line: string): (r: Option<(string, string, SemanticSymbol)>)
    ensures Contains(line, " ") ==> r.Some? && var (lbl, str) := SplitOnce(line, ' ').value;
      r.value == (lbl + ": .asciz " + str, "[" + lbl + "]", SemanticSymbol("(" + lbl + ")", true, String))
    ensures !Contains(line, " ") ==> (r.Some? <==> Contains(line, "-"))
    ensures !Contains(line, " ") && r.Some? ==> var name := Split(line, "-")[0];
      r.value.0 == "gbl_" + name + ": .quad 0" && r.value.1 == "[" + name + "]"
      && r.value.2.location == "(gbl_" + name + ")"
      && (r.value.2.symType == Bool <==> Split(line, "-")[1] == "bool")
      && r.value.2.symType != String
    ensures r.Some? ==> r.value.2.global && r.value.1 == GlobalKey(line)
  {
    if Contains(line, " ") then
      var (lbl, str) := SplitOnce(line, ' ').value;
      Some((lbl + ": .asciz " + str, "[" + lbl + "]", SemanticSymbol("(" + lbl + ")", true, String)))
    else
      var parts := Split(line, "-");
      SplitHasSeparator(line, "-");
      if |parts| < 2 then None
      else
        var name := parts[0];
        var symType := if parts[1] == "bool" then Bool else Int;
        Some(("gbl_" + name + ": .quad 0", "[" + name + "]", SemanticSymbol("(gbl_" + name + ")", true, symType)))
  }

  /** A split yields more than one piece exactly when the separator occurs. */
  lemma SplitHasSeparator(s: string, sep: string)
    requires |sep| > 0
    ensures |Split(s, sep)| >= 2 <==> Contains(s, sep)
  {
  }

  /** The `pop_back` loop of `translate_globals`: drops lines from the end up to and
      including the last `[END GLOBALS]`, or all of them when there is none. */
  function DropThroughEndMarker(lines: seq<string>): (r: seq<string>)
    ensures r <= lines
    ensures EndGlobals in lines ==>
              |r| < |lines| && lines[|r|] == EndGlobals && forall k :: |r| < k < |lines| ==> lines[k] != EndGlobals
    ensures EndGlobals !in lines ==> r == []
  {
    if lines == [] then []
    else if lines[|lines| - 1] == EndGlobals then lines[..|lines| - 1]
    else
      assert EndGlobals in lines ==> EndGlobals in lines[..|lines| - 1];
      DropThroughEndMarker(lines[..|lines| - 1])
  }

  /** The `for global in globals` loop over the remaining lines, from a given table. */
  function GlobalLines(table: SymbolTable, lines: seq<string>): (r: Option<(seq<string>, SymbolTable)>)
    ensures r.Some? ==> |r.value.0| == |lines|
  {
    if lines == [] then Some(([], table))
    else
      match GlobalLines(table, lines[..|lines| - 1])
      case None => None
      case Some((outs, t)) =>
        match GlobalEntry(lines[|lines| - 1])
        case None => None
        case Some((asm, key, sym)) => Some((outs + [asm], t[key := sym]))
  }

  /** One more globals line extends the fold by its entry. */
  lemma GlobalLinesStep(table: SymbolTable, lines: seq<string>, i: nat, outs: seq<string>, t: SymbolTable)
    requires i < |lines| && GlobalLines(table, lines[..i]) == Some((outs, t))
    ensures GlobalLines(table, lines[..i + 1]) ==
      match GlobalEntry(lines[i])
      case None => None
      case Some((asm, key, sym)) => Some((outs + [asm], t[key := sym]))
  {
    assert lines[..i + 1][..i] == lines[..i];
  }

  /** A line that fails makes the whole globals section fail. */
  lemma {:induction false} GlobalLinesFailure(table: SymbolTable, lines: seq<string>, j: nat)
    requires j <= |lines| && GlobalLines(table, lines[..j]).None?
    ensures GlobalLines(table, lines).None?
  {
    if j == |lines| {
      assert lines[..j] == lines;
    } else {
      assert lines[..|lines| - 1][..j] == lines[..j];
      GlobalLinesFailure(table, lines[..|lines| - 1], j);
    }
  }

  /** Every processed global line is in the new table under its key, with `global` set. */
  lemma {:induction false} GlobalLinesKeys(table: SymbolTable, lines: seq<string>)
    requires GlobalLines(table, lines).Some?
    ensures var t := GlobalLines(table, lines).value.1;
      forall i :: 0 <= i < |lines| ==> GlobalKey(lines[i]) in t && t[GlobalKey(lines[i])].global
  {
    if lines != [] {
      var init := lines[..|lines| - 1];
      var last := lines[|lines| - 1];
      GlobalLinesKeys(table, init);
      var t1 := GlobalLines(table, init).value.1;
      var (_, key, sym) := GlobalEntry(last).value;
      var t := GlobalLines(table, lines).value.1;
      assert t == t1[key := sym];
      forall i | 0 <= i < |lines|
        ensures GlobalKey(lines[i]) in t && t[GlobalKey(lines[i])].global
      {
        if i < |init| {
          assert init[i] == lines[i];
        }
      }
    }
  }

  /** Each entry after the globals section is either one that was there before, unchanged,
      or a global one. */
  lemma {:induction false} GlobalLinesOnlyGlobals(table: SymbolTable, lines: seq<string>)
    requires GlobalLines(table, lines).Some?
    ensures var t := GlobalLines(table, lines).value.1;
      forall k :: k in t ==> t[k].global || (k in table && t[k] == table[k])
  {
    if lines != [] {
      var init := lines[..|lines| - 1];
      GlobalLinesOnlyGlobals(table, init);
      var t1 := GlobalLines(table, init).value.1;
      var (_, key, sym) := GlobalEntry(lines[|lines| - 1]).value;
      assert GlobalLines(table, lines).value.1 == t1[key := sym];
    }
  }

  /** What `translate_globals` returns and leaves in the table. */
  function TranslateGlobalsSpec(table: SymbolTable, globals: string): Option<(string, SymbolTable)> {
    GlobalsSection(table, Split(globals, "\n")[1..])
  }

  /** The globals section once its first line (the section header) is dropped. */
  function GlobalsSection(table: SymbolTable, rest: seq<string>): Option<(string, SymbolTable)> {
    if rest == [] || Trim(rest[0]) == "" then Some((".globl main", table))
    else
      match GlobalLines(table, DropThroughEndMarker(rest))
      case None => None
      case Some((outs, t)) => Some((Join([".globl main", ".data"] + outs, "\n"), t))
  }

  /** The output always begins with `.globl main`; without a first globals line there is
      nothing else and the table is unchanged; otherwise a `.data` line follows. */
  lemma TranslateGlobalsShape(table: SymbolTable, rest: seq<string>)
    requires GlobalsSection(table, rest).Some?
    ensures ".globl main" <= GlobalsSection(table, rest).value.0
    ensures (rest == [] || Trim(rest[0]) == "") ==> GlobalsSection(table, rest).value == (".globl main", table)
    ensures !(rest == [] || Trim(rest[0]) == "") ==> ".globl main\n.data" <= GlobalsSection(table, rest).value.0
  {
    if !(rest == [] || Trim(rest[0]) == "") {
      var g := GlobalLines(table, DropThroughEndMarker(rest));
      assert g.Some?;
      HeaderPrefix(g.value.0);
    }
  }

  /** The globals text with at least one line starts with the `.globl main` and `.data`
      lines. */
  lemma HeaderPrefix(outs: seq<string>)
    ensures ".globl main\n.data" <= Join([".globl main", ".data"] + outs, "\n")
    ensures ".globl main" <= Join([".globl main", ".data"] + outs, "\n")
  {
    var parts := [".globl main", ".data"] + outs;
    assert parts[0] == ".globl main" && parts[1..] == [".data"] + outs;
    var tail := Join(parts[1..], "\n");
    assert Join(parts, "\n") == ".globl main" + "\n" + tail;
    JoinStartsWith(parts[1..], "\n");
    PrefixAppend(".globl main" + "\n", ".data", tail);
    assert ".globl main" + "\n" + ".data" == ".globl main\n.data";
  }

  /** A common front keeps a prefix a prefix. */
  lemma PrefixAppend(front: string, a: string, b: string)
    requires a <= b
    ensures front + a <= front + b
  {
    assert (front + b)[..|front + a|] == front + b[..|a|];
  }

  /** A joined list starts with its first part. */
  lemma JoinStartsWith(parts: seq<string>, sep: string)
    requires |parts| >= 1
    ensures parts[0] <= Join(parts, sep)
  {
  }

  /** The location of the i-th local of a function: `-(i*8+24)(%rbp)`. */
  function LocalSlot(i: nat): string {
    "-" + NatToString(i * 8 + 24) + "(%rbp)"
  }

  /** Texts that agree around their middles agree in the middle. */
  lemma MiddleEqual(p: string, a: string, b: string, q: string)
    ensures p + a + q == p + b + q ==> a == b
  {
    var s := p + a + q;
    var t := p + b + q;
    assert s[|p|..|s| - |q|] == a;
    assert t[|p|..|t| - |q|] == b;
  }

  /** Different frame offsets render as different slot texts. */
  lemma SlotTextsDistinct(m: nat, n: nat)
    requires m != n
    ensures "-" + NatToString(m) + "(%rbp)" != "-" + NatToString(n) + "(%rbp)"
  {
    MiddleEqual("-", NatToString(m), NatToString(n), "(%rbp)");
    ParseNatToString(m);
    ParseNatToString(n);
  }

  /** Different locals get different stack slots. */
  lemma LocalSlotsDistinct(i: nat, j: nat)
    requires i != j
    ensures LocalSlot(i) != LocalSlot(j)
  {
    SlotTextsDistinct(i * 8 + 24, j * 8 + 24);
  }

  /** The table key of a `name-type` line. */
  function LocalKey(line: string): string {
    "[" + Split(line, "-")[0] + "]"
  }

  /** What `populate_fn` records for the i-th `name-type` line: a local in slot i. */
  function LocalEntry(i: nat, line: string): (r: Option<(string, SemanticSymbol)>)
    ensures r.Some? <==> Contains(line, "-")
    ensures r.Some? ==>
              r.value.0 == LocalKey(line)
              && r.value.1.location == LocalSlot(i) && !r.value.1.global
              && (r.value.1.symType == Bool <==> Split(line, "-")[1] == "bool") && r.value.1.symType != String
  {
    var parts := Split(line, "-");
    SplitHasSeparator(line, "-");
    if |parts| < 2 then None
    else
      var symType := if parts[1] == "bool" then Bool else Int;
      Some(("[" + parts[0] + "]", SemanticSymbol(LocalSlot(i), false, symType)))
  }

  /** The enumerate loop of `populate_fn`: the table after all lines, and the value it
      returns, which is the index of the last line (0 when there are none). */
  function PopulateSpec(table: SymbolTable, vars: seq<string>): (r: Option<(nat, SymbolTable)>)
    ensures r.Some? ==> r.value.0 == if vars == [] then 0 else |vars| - 1
  {
    if vars == [] then Some((0, table))
    else
      match PopulateSpec(table, vars[..|vars| - 1])
      case None => None
      case Some((_, t)) =>
        match LocalEntry(|vars| - 1, vars[|vars| - 1])
        case None => None
        case Some((key, sym)) => Some((|vars| - 1, t[key := sym]))
  }

  /** A line that fails makes the whole locals section fail. */
  lemma {:induction false} PopulateFailure(table: SymbolTable, vars: seq<string>, j: nat)
    requires j <= |vars| && PopulateSpec(table, vars[..j]).None?
    ensures PopulateSpec(table, vars).None?
  {
    if j == |vars| {
      assert vars[..j] == vars;
    } else {
      assert vars[..|vars| - 1][..j] == vars[..j];
      PopulateFailure(table, vars[..|vars| - 1], j);
    }
  }

  /** With distinct names, the i-th local is in the table at slot i, not global, with the
      kind its line names. */
  lemma {:induction false} PopulateSlots(table: SymbolTable, vars: seq<string>)
    requires PopulateSpec(table, vars).Some?
    requires forall i, j :: 0 <= i < j < |vars| ==> LocalKey(vars[i]) != LocalKey(vars[j])
    ensures Slotted(PopulateSpec(table, vars).value.1, vars)
  {
    if vars != [] {
      var n := |vars| - 1;
      var init := vars[..n];
      assert PopulateSpec(table, init).Some?;
      DistinctKeysInit(vars);
      PopulateSlots(table, init);
      var t1 := PopulateSpec(table, init).value.1;
      var (key, sym) := LocalEntry(n, vars[n]).value;
      assert key == LocalKey(vars[n]);
      assert PopulateSpec(table, vars).value.1 == t1[key := sym];
      assert vars == init + [vars[n]];
      SlottedSnoc(t1, init, vars[n], key, sym);
    }
  }

  /** Distinct keys among all lines are distinct among all but the last, and differ from the
      last line's key. */
  lemma DistinctKeysInit(vars: seq<string>)
    requires vars != []
    requires forall i, j :: 0 <= i < j < |vars| ==> LocalKey(vars[i]) != LocalKey(vars[j])
    ensures var init := vars[..|vars| - 1];
      (forall a, b :: 0 <= a < b < |init| ==> LocalKey(init[a]) != LocalKey(init[b])) &&
      (forall a :: 0 <= a < |init| ==> LocalKey(init[a]) != LocalKey(vars[|vars| - 1]))
  {
    var init := vars[..|vars| - 1];
    forall a | 0 <= a < |init| ensures init[a] == vars[a] {
    }
  }

  /** Every line of `vars` has an entry, found in `t` under its key. */
  predicate Slotted(t: SymbolTable, vars: seq<string>) {
    forall i :: 0 <= i < |vars| ==>
      LocalEntry(i, vars[i]).Some? && LocalKey(vars[i]) in t && t[LocalKey(vars[i])] == LocalEntry(i, vars[i]).value.1
  }

  /** A new last line whose key no earlier line names keeps the earlier slots. */
  lemma SlottedSnoc(t: SymbolTable, init: seq<string>, last: string, key: string, sym: SemanticSymbol)
    requires Slotted(t, init) && LocalEntry(|init|, last) == Some((key, sym))
    requires forall i :: 0 <= i < |init| ==> LocalKey(init[i]) != key
    ensures Slotted(t[key := sym], init + [last])
  {
    var vars := init + [last];
    forall i | 0 <= i < |vars|
      ensures LocalEntry(i, vars[i]).Some? && LocalKey(vars[i]) in t[key := sym] && t[key := sym][LocalKey(vars[i])] == LocalEntry(i, vars[i]).value.1
    {
      if i < |init| {
        assert vars[i] == init[i];
      }
    }
  }

  /** Each line of a successful locals section has an entry. */
  lemma {:induction false} PopulateEntriesSome(table: SymbolTable, vars: seq<string>, i: nat)
    requires PopulateSpec(table, vars).Some? && i < |vars|
    ensures LocalEntry(i, vars[i]).Some?
  {
    if i < |vars| - 1 {
      assert vars[..|vars| - 1][i] == vars[i];
      PopulateEntriesSome(table, vars[..|vars| - 1], i);
    }
  }

  /** Keys no line names keep their entries. */
  lemma {:induction false} PopulateKeepsOthers(table: SymbolTable, vars: seq<string>, k: string)
    requires PopulateSpec(table, vars).Some?
    requires forall i :: 0 <= i < |vars| ==> LocalKey(vars[i]) != k
    ensures var t := PopulateSpec(table, vars).value.1;
      (k in t <==> k in table) && (k in table ==> t[k] == table[k])
  {
    if vars != [] {
      var n := |vars| - 1;
      forall i | 0 <= i < n ensures LocalKey(vars[..n][i]) != k {
        assert vars[..n][i] == vars[i];
      }
      PopulateKeepsOthers(table, vars[..n], k);
    }
  }

  /** The frame `populate_fn`'s result asks for is one slot smaller than the slots it hands
      out once there are locals: two locals occupy offsets 24 and 32 below `%rbp`, while the
      prologue reserves 8 bytes. */
  lemma PopulateCountIsLastIndex(table: SymbolTable, vars: seq<string>)
    requires PopulateSpec(table, vars).Some? && |vars| >= 1
    ensures PopulateSpec(table, vars).value.0 == |vars| - 1
    ensures PopulateSpec(table, vars).value.0 * 8 < |vars| * 8
  {
  }

  /** `clear_fn`: keeps exactly the entries whose `global` flag is false, so the globals
      are the ones removed. */
  function ClearedTable(table: SymbolTable): (r: SymbolTable)
    ensures forall k :: k in r <==> k in table && !table[k].global
    ensures forall k :: k in r ==> r[k] == table[k]
  {
    map k | k in table && !table[k].global :: table[k]
  }

  /** No entry of the table is global. */
  predicate NoGlobals(table: SymbolTable) {
    forall k :: k in table ==> !table[k].global
  }

  /** Statements of a function body translated in order, fold by the last one. */
  function StatementsSpec(table: SymbolTable, stmts: seq<string>, numLocals: nat): (r: Option<seq<string>>)
    ensures r.Some? ==> |r.value| == |stmts|
  {
    if stmts == [] then Some([])
    else
      match StatementsSpec(table, stmts[..|stmts| - 1], numLocals)
      case None => None
      case Some(outs) =>
        match TranslateStatement(table, stmts[|stmts| - 1], numLocals)
        case None => None
        case Some(o) => Some(outs + [o])
  }

  /** A statement that fails makes the whole body fail. */
  lemma {:induction false} StatementsFailure(table: SymbolTable, stmts: seq<string>, numLocals: nat, j: nat)
    requires j <= |stmts| && StatementsSpec(table, stmts[..j], numLocals).None?
    ensures StatementsSpec(table, stmts, numLocals).None?
  {
    if j == |stmts| {
      assert stmts[..j] == stmts;
    } else {
      assert stmts[..|stmts| - 1][..j] == stmts[..j];
      StatementsFailure(table, stmts[..|stmts| - 1], numLocals, j);
    }
  }

  /** One more statement extends the fold by its translation. */
  lemma StatementsStep(table: SymbolTable, stmts: seq<string>, numLocals: nat, i: nat, outs: seq<string>)
    requires i < |stmts| && StatementsSpec(table, stmts[..i], numLocals) == Some(outs)
    ensures StatementsSpec(table, stmts[..i + 1], numLocals) ==
      match TranslateStatement(table, stmts[i], numLocals)
      case None => None
      case Some(o) => Some(outs + [o])
  {
    assert stmts[..i + 1][..i] == stmts[..i];
  }

  /** `translate_fn_code`: the first line is skipped, the second names the function and
      gets the prologue, every further line is a statement. */
  function TranslateFnCodeSpec(table: SymbolTable, code: string, numLocals: nat): Option<string> {
    var lines := Split(code, "\n");
    if |lines| < 2 then Some("")
    else
      var name := Split(lines[1], ":")[0];
      match StatementsSpec(table, lines[2..], numLocals)
      case None => None
      case Some(outs) => Some(Join([name + ":" + FunctionPrologue(numLocals)] + outs, "\n"))
  }

  /** The locals section of a function, less the line after the last newline. */
  function LocalLines(locals: string): seq<string> {
    var ls := Split(locals, "\n");
    ls[..|ls| - 1]
  }

  /** `translate_fn`: text and table after one function section. A section without a
      locals part or without a code part gives `""`; in the second case the locals stay
      in the table. */
  function TranslateFnSpec(table: SymbolTable, fnText: string): Option<(string, SymbolTable)> {
    var pieces := Split(fnText, "LOCALS]\n");
    if |pieces| < 2 then Some(("", table))
    else
      var locals := pieces[1];
      var populated :=
        if !("\n[END " <= locals) then PopulateSpec(table, LocalLines(locals)) else Some((0, table));
      match populated
      case None => None
      case Some((numLocals, t)) =>
        if |pieces| < 3 then Some(("", t))
        else
          match TranslateFnCodeSpec(t, pieces[2], numLocals)
          case None => None
          case Some(out) => Some((out, ClearedTable(t)))
  }

  /** A function section with a code part leaves no global entry behind; one without
      keeps a table free of globals free of them. */
  lemma TranslateFnNoGlobals(table: SymbolTable, fnText: string)
    requires TranslateFnSpec(table, fnText).Some?
    requires |Split(fnText, "LOCALS]\n")| >= 3 || NoGlobals(table)
    ensures NoGlobals(TranslateFnSpec(table, fnText).value.1)
  {
    var pieces := Split(fnText, "LOCALS]\n");
    if |pieces| >= 2 {
      var locals := pieces[1];
      if !("\n[END " <= locals) {
        PopulateGlobalsKept(table, LocalLines(locals));
      }
    }
  }

  /** Once a function section with a code part has been translated, the table holds no
      global for any later function: a global name then resolves to an empty operand. */
  lemma {:induction false} FunctionsDropGlobals(table: SymbolTable, fns: seq<string>, i: nat)
    requires FunctionsSpec(table, fns).Some?
    requires i < |fns| && |Split(fns[i], "LOCALS]\n")| >= 3
    ensures NoGlobals(FunctionsSpec(table, fns).value.1)
  {
    var n := |fns| - 1;
    var init := fns[..n];
    var t1 := FunctionsSpec(table, init).value.1;
    if i < n {
      assert init[i] == fns[i];
      FunctionsDropGlobals(table, init, i);
    }
    TranslateFnNoGlobals(t1, fns[n]);
  }

  /** `populate_fn` only adds local entries: every global entry of the result was already
      there with the same value. */
  lemma {:induction false} PopulateGlobalsKept(table: SymbolTable, vars: seq<string>)
    requires PopulateSpec(table, vars).Some?
    ensures var t := PopulateSpec(table, vars).value.1;
      forall k :: k in t && t[k].global ==> k in table && t[k] == table[k]
  {
    if vars != [] {
      PopulateGlobalsKept(table, vars[..|vars| - 1]);
    }
  }

  /** The function sections in order, each starting from the table the previous left. */
  function FunctionsSpec(table: SymbolTable, fns: seq<string>): Option<(seq<string>, SymbolTable)> {
    if fns == [] then Some(([], table))
    else
      match FunctionsSpec(table, fns[..|fns| - 1])
      case None => None
      case Some((outs, t)) =>
        match TranslateFnSpec(t, fns[|fns| - 1])
        case None => None
        case Some((o, t')) => Some((outs + [o], t'))
  }

  /** A function section that fails makes the whole program fail. */
  lemma {:induction false} FunctionsFailure(table: SymbolTable, fns: seq<string>, j: nat)
    requires j <= |fns| && FunctionsSpec(table, fns[..j]).None?
    ensures FunctionsSpec(table, fns).None?
  {
    if j == |fns| {
      assert fns[..j] == fns;
    } else {
      assert fns[..|fns| - 1][..j] == fns[..j];
      FunctionsFailure(table, fns[..|fns| - 1], j);
    }
  }

  /** `convert_x86`: the IR split into `[BEGIN ` sections; the text before the first is
      dropped, the next is the globals section, the rest are functions; the exit syscall
      and an empty line close the program. */
  function ConvertX86Spec(ir: string): Option<string> {
    ConvertSections(Split(ir, "[BEGIN ")[1..])
  }

  /** The program from its sections after the text before the first `[BEGIN `. */
  function ConvertSections(sections: seq<string>): Option<string> {
    var globals: Option<(string, SymbolTable)> := if sections == [] then Some(("", map[])) else TranslateGlobalsSpec(map[], sections[0]);
    match globals
    case None => None
    case Some((g, t)) =>
      var fns := if sections == [] then [] else sections[1..];
      match FunctionsSpec(t, fns)
      case None => None
      case Some((outs, _)) => Some(Join([g, "\n.text"] + outs + [ExitCode, ""], "\n"))
  }

  /** Joining a list that ends with a given part ends with that part. */
  lemma {:induction false} JoinEndsWith(parts: seq<string>, sep: string)
    requires |parts| >= 1
    ensures var j := Join(parts, sep); var l := parts[|parts| - 1];
      |l| <= |j| && j[|j| - |l|..] == l
  {
    if |parts| > 1 {
      JoinEndsWith(parts[1..], sep);
    }
  }

  /** Every translated program ends with the exit system call followed by a newline, and
      starts with `.globl main` when it has a globals section. */
  lemma ConvertX86Shape(sections: seq<string>)
    requires ConvertSections(sections).Some?
    ensures EndsWith(ConvertSections(sections).value, ExitCode + "\n")
    ensures sections != [] ==> ".globl main" <= ConvertSections(sections).value
  {
    var globals: Option<(string, SymbolTable)> := if sections == [] then Some(("", map[])) else TranslateGlobalsSpec(map[], sections[0]);
    var (g, t) := globals.value;
    var fns := if sections == [] then [] else sections[1..];
    var outs := FunctionsSpec(t, fns).value.0;
    assert ConvertSections(sections).value == Join([g, "\n.text"] + outs + [ExitCode, ""], "\n");
    ProgramEndsWithExit(g, outs, ExitCode);
    ProgramStartsWithGlobals(g, outs);
    if sections != [] {
      TranslateGlobalsShape(map[], Split(sections[0], "\n")[1..]);
    }
  }

  /** The assembled program ends with the exit system call and a newline. */
  lemma ProgramEndsWithExit(g: string, outs: seq<string>, exit: string)
    ensures EndsWith(Join([g, "\n.text"] + outs + [exit, ""], "\n"), exit + "\n")
  {
    var init := [g, "\n.text"] + outs + [exit];
    assert [g, "\n.text"] + outs + [exit, ""] == init + [""];
    JoinSnoc(init, "", "\n");
    JoinEndsWith(init, "\n");
  }

  /** The assembled program starts with the globals text. */
  lemma ProgramStartsWithGlobals(g: string, outs: seq<string>)
    ensures g <= Join([g, "\n.text"] + outs + [ExitCode, ""], "\n")
  {
    var parts := [g, "\n.text"] + outs + [ExitCode, ""];
    assert parts == [g] + parts[1..];
    assert Join(parts, "\n") == g + "\n" + Join(parts[1..], "\n");
  }

  /** After the globals section, starting from an empty table, every entry is global. */
  lemma GlobalsTableAllGlobal(rest: seq<string>)
    requires GlobalsSection(map[], rest).Some?
    ensures var t := GlobalsSection(map[], rest).value.1; forall k :: k in t ==> t[k].global
  {
    if !(rest == [] || Trim(rest[0]) == "") {
      GlobalLinesOnlyGlobals(map[], DropThroughEndMarker(rest));
    }
  }

  /** The `pop_back` loop of `translate_globals`. */
  method PopEndMarker(lines: seq<string>) returns (kept: seq<string>)
    ensures kept == DropThroughEndMarker(lines)
  {
    kept := lines;
    var stopped := false;
    while !stopped
      invariant !stopped ==> DropThroughEndMarker(kept) == DropThroughEndMarker(lines)
      invariant stopped ==> kept == DropThroughEndMarker(lines)
      decreases |kept|, !stopped
    {
      if kept == [] {
        stopped := true;
      } else {
        var back := kept[|kept| - 1];
        kept := kept[..|kept| - 1];
        if back == EndGlobals {
          stopped := true;
        }
      }
    }
  }

  /** The symbol table of the backend, keyed by IR names in brackets. */
  class FnSymbolTableWrapper {
    var table: SymbolTable

    constructor ()
      ensures table == map[]
    {
      table := map[];
    }

    /** `translate_globals`. */
    method TranslateGlobals(globals: string) returns (r: Option<string>)
      modifies this
      ensures var spec := TranslateGlobalsSpec(old(table), globals);
        (spec.None? <==> r.None?) && (spec.Some? ==> r == Some(spec.value.0) && table == spec.value.1)
    {
      var output := [".globl main"];
      var lines := Split(globals, "\n")[1..];
      if lines == [] || Trim(lines[0]) == "" {
        return Some(Join(output, "\n"));
      }
      lines := PopEndMarker(lines);
      var outs := AddGlobalLines(lines);
      if outs.None? {
        return None;
      }
      r := Some(Join([".globl main", ".data"] + outs.value, "\n"));
    }

    /** The `for global in globals` loop of `translate_globals`: the assembler lines, with
        the table updated line by line. */
    method AddGlobalLines(lines: seq<string>) returns (r: Option<seq<string>>)
      modifies this
      ensures var spec := GlobalLines(old(table), lines);
        (spec.None? <==> r.None?) && (spec.Some? ==> r == Some(spec.value.0) && table == spec.value.1)
    {
      var outs: seq<string> := [];
      assert lines[..0] == [];
      ghost var start := table;
      for i := 0 to |lines|
        invariant GlobalLines(start, lines[..i]) == Some((outs, table))
      {
        GlobalLinesStep(start, lines, i, outs, table);
        var entry := GlobalEntry(lines[i]);
        if entry.None? {
          GlobalLinesFailure(start, lines, i + 1);
          return None;
        }
        var (asm, key, sym) := entry.value;
        outs := outs + [asm];
        table := table[key := sym];
      }
      assert lines[..|lines|] == lines;
      r := Some(outs);
    }

    /** `populate_fn`. */
    method PopulateFn(vars: seq<string>) returns (r: Option<nat>)
      modifies this
      ensures var spec := PopulateSpec(old(table), vars);
        (spec.None? <==> r.None?) && (spec.Some? ==> r == Some(spec.value.0) && table == spec.value.1)
    {
      var numLocals := 0;
      ghost var start := table;
      assert vars[..0] == [];
      for i := 0 to |vars|
        invariant PopulateSpec(start, vars[..i]) == Some((numLocals, table))
      {
        assert vars[..i + 1][..i] == vars[..i];
        var entry := LocalEntry(i, vars[i]);
        if entry.None? {
          PopulateFailure(start, vars, i + 1);
          return None;
        }
        var (key, sym) := entry.value;
        table := table[key := sym];
        numLocals := i;
      }
      assert vars[..|vars|] == vars;
      r := Some(numLocals);
    }

    /** `clear_fn`. */
    method ClearFn()
      modifies this
      ensures table == ClearedTable(old(table))
    {
      table := map k | k in table && !table[k].global :: table[k];
    }

    /** The statement loop of `translate_fn_code`, in order; it reads the table. */
    method TranslateStatements(stmts: seq<string>, numLocals: nat) returns (r: Option<seq<string>>)
      ensures r == StatementsSpec(table, stmts, numLocals)
    {
      var output: seq<string> := [];
      for i := 0 to |stmts|
        invariant StatementsSpec(table, stmts[..i], numLocals) == Some(output)
      {
        var s := TranslateStatement(table, stmts[i], numLocals);
        StatementsStep(table, stmts, numLocals, i, output);
        if s.None? {
          StatementsFailure(table, stmts, numLocals, i + 1);
          return None;
        }
        output := output + [s.value];
      }
      assert stmts[..|stmts|] == stmts;
      r := Some(output);
    }

    /** `translate_fn_code`; it reads the table and changes nothing. */
    method TranslateFnCode(code: string, numLocals: nat) returns (r: Option<string>)
      ensures r == TranslateFnCodeSpec(table, code, numLocals)
    {
      var lines := Split(code, "\n");
      if |lines| < 2 {
        return Some("");
      }
      var name := Split(lines[1], ":")[0];
      var outs := TranslateStatements(lines[2..], numLocals);
      if outs.None? {
        return None;
      }
      r := Some(Join([name + ":" + FunctionPrologue(numLocals)] + outs.value, "\n"));
    }

    /** The loop of `convert_x86` over the function sections, in order. */
    method TranslateFns(fns: seq<string>) returns (r: Option<seq<string>>)
      modifies this
      ensures var spec := FunctionsSpec(old(table), fns);
        (spec.None? <==> r.None?) && (spec.Some? ==> r == Some(spec.value.0) && table == spec.value.1)
    {
      ghost var start := table;
      var outs: seq<string> := [];
      assert fns[..0] == [];
      for i := 0 to |fns|
        invariant FunctionsSpec(start, fns[..i]) == Some((outs, table))
      {
        assert fns[..i + 1][..i] == fns[..i];
        var f := TranslateFn(fns[i]);
        if f.None? {
          FunctionsFailure(start, fns, i + 1);
          return None;
        }
        outs := outs + [f.value];
      }
      assert fns[..|fns|] == fns;
      r := Some(outs);
    }

    /** `translate_fn`: enters the section's locals into the table, translates its code part,
        then keeps only the table's non-global entries. */
    method TranslateFn(fnText: string) returns (r: Option<string>)
      modifies this
      ensures var spec := TranslateFnSpec(old(table), fnText);
        (spec.None? <==> r.None?) && (spec.Some? ==> r == Some(spec.value.0) && table == spec.value.1)
    {
      var pieces := Split(fnText, "LOCALS]\n");
      if |pieces| < 2 {
        return Some("");
      }
      var locals := pieces[1];
      var numLocals: nat;
      if !("\n[END " <= locals) {
        var ls := Split(locals, "\n");
        ls := ls[..|ls| - 1];
        var n := PopulateFn(ls);
        if n.None? {
          return None;
        }
        numLocals := n.value;
      } else {
        numLocals := 0;
      }
      if |pieces| < 3 {
        return Some("");
      }
      var code := pieces[2];
      var out := TranslateFnCode(code, numLocals);
      if out.None? {
        return None;
      }
      ClearFn();
      r := Some(Join([out.value], "\n"));
    }
  }

  /** `convert_x86`. */
  method ConvertX86(ir: string) returns (r: Option<string>)
    ensures r == ConvertX86Spec(ir)
  {
    var sections := Split(ir, "[BEGIN ")[1..];
    r := TranslateSections(sections);
  }

  /** `convert_x86` once the text before the first `[BEGIN ` is dropped. */
  method TranslateSections(sections: seq<string>) returns (r: Option<string>)
    ensures r == ConvertSections(sections)
  {
    var wrapper := new FnSymbolTableWrapper();
    var g := "";
    if sections != [] {
      var gr := wrapper.TranslateGlobals(sections[0]);
      if gr.None? {
        return None;
      }
      g := gr.value;
    }
    ghost var globals: Option<(string, SymbolTable)> := if sections == [] then Some(("", map[])) else TranslateGlobalsSpec(map[], sections[0]);
    assert globals == Some((g, wrapper.table));
    var fns := if sections == [] then [] else sections[1..];
    var outs := wrapper.TranslateFns(fns);
    if outs.None? {
      return None;
    }
    r := Some(Join([g, "\n.text"] + outs.value + [ExitCode, ""], "\n"));
  }
}
