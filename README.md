# drewno_mars compiler core in Dafny

This project models the core of drewno_mars, a student compiler for a small teaching
language, and proves properties of that model. The parts modelled are the pieces of the
pipeline that exist as code:

- **x86 back end** (`X86`). It reads the textual intermediate representation back into a
  per-function symbol table: `[name]` maps to a location, a global flag and a type, and
  locals get the stack slots `-(i*8+24)(%rbp)`. It then lowers each instruction to AT&T
  assembly text through a fixed table. `FnSymbolTableWrapper` is a class whose map field
  is updated by `translate_globals`, `populate_fn` and `clear_fn`.
- **IR symbol collection** (`ThreeAC`, `ThreeACNode`). The `IntermediateRepresentation`
  tables are a class: globals, the `str<N>` string pool, and per-function locals and
  temporary counters. The `find_vars` walk fills them; each node's effect is an event
  list that the class methods replay.
- **Scoped name analysis**, in two versions. The newer one (`Names`, `NamedNode`) is
  src/analysis/name. The older one (`ParserNames`, `ParserNamedNode`) is
  src/parser/named_unparser. Both keep a `NamedUnparser` class whose table is keyed by
  (name, depth). They report void declarations, duplicates and undefined names, remove a
  scope when a block ends, and render every resolved name as `name{kind}`. They differ in
  how far a lookup reaches and in how duplicate arguments are handled, and the lemmas
  state both.
- **Type-signature registration** (`TypeAnalysis`, `TypeNode`). Function and method
  signatures and class field types are recorded, methods under `class--method`.
- **Source positions** (`Spans`, `Positions`, `SpanNode`). Positions are ordered
  lexicographically, spans are joined, and byte offsets are corrected into
  (row, column) over the line lengths. The correction is applied across both ASTs.
- **Text formatting** (`Format`, `Parser`, `Display`, `Debug`):
  - brace-driven re-indentation (`add_tabs`, in two variants);
  - the `Display` printer of the newer AST;
  - the `Debug` printer of the older AST.
- **Argument parsing** (`Config`): `Config::build`.

The sources use three shapes of syntax tree. `AstNew` has struct nodes with a `kind` and
a span. `AstOld` has plain enums and a four-field `Position`. The newer name analysis
uses a third mix: `Type` variants `Prim`, `PerfectPrim`, `Class` and `PerfectClass`,
`Exp` and binary and unary expressions as structs with a `kind`, and a `Loc` enum. It is
modelled over `AstNew`: `PerfectPrim(t)` is `Type(true, Prim(t))`, `Class(c)` is
`Type(false, Class(c))`, and so on. Rust's `str` operations (split, trim, lines, `parse::<i32>`, join)
are written out in `Strings`, and `Wrappers` holds `Option` and `Result`. A Rust panic
(for example an out-of-range index into a split result) is a `None` result. A printed
diagnostic sets the error flag and appends its kind to a recorded list of errors.

Each operation that changes state is a method proved against a function on the old
state. The function's own contract, and the lemmas about it, state what the source
promises.

## Model

| member | source | states |
|---|---|---|
| Config.Build | src/lib.rs:14-42 | the program name is skipped; fewer than two, exactly two and exactly three arguments give the input-file, option and output-file errors respectively; four or more give `Ok` with the second argument as input file and the fourth as output file |
| Config.BuildIgnoresOptionAndExtras | src/lib.rs:26-35 | the option argument and anything after the output file never change the result |
| Format.TabsBefore | src/format.rs:12-18 | a line is printed one level shallower exactly when it starts with `}` and the depth is positive, otherwise at the same depth |
| Format.TabsAfter | src/format.rs:22-28 | the depth after a line is the depth it was printed at, plus one when it ends with `{` |
| Format.Indent | src/format.rs:7-30 | one output line per input line |
| Format.AddTabs | src/format.rs:2-32 | `add_tabs` returns the re-indented lines of its input joined with newlines |
| Format.IndentLoop | src/format.rs:7-30 | the loop over the lines produces exactly the re-indented lines, starting at depth 0 |
| Format.IndentAt | src/format.rs:7-30 | the i-th output line is the i-th input line, trimmed, preceded by four spaces per level of the depth the earlier lines left |
| Format.IndentedLineStrips | src/format.rs:8-20 | stripping the leading whitespace of an output line gives back the trimmed input line |
| Format.CloseAndOpen | src/format.rs:12-28 | a line such as `} else {` at a positive depth prints one level shallower and leaves the depth unchanged |
| Format.IndentedLineNoNewline | src/format.rs:8-20 | an output line holds no newline |
| Format.IndentNoNewline | src/format.rs:7-30 | no output line holds a newline |
| Format.AddTabsLines | src/format.rs:2-32 | splitting the result at newlines gives back exactly the re-indented lines, as many as the input had |
| Parser.AddTabs | src/parser.rs:15-48 | this `add_tabs` returns each re-indented line followed by a newline |
| Parser.TerminatedLoop | src/parser.rs:20-45 | the loop appends indentation, the trimmed line and a newline for every input line, with the same depth rules as src/format.rs |
| Parser.Unparse | src/parser.rs:11-13 | `unparse` is the re-indented `Display` text of the program |
| Parser.AddTabsLines | src/parser.rs:15-48 | `str::lines` of the result gives back exactly the re-indented input lines |
| Parser.IndentLinesSplittable | src/parser.rs:20-45 | re-indented lines hold no newline and never end in a carriage return |
| Parser.IndentedLineNotCr | src/parser.rs:21-44 | a re-indented line never ends in a carriage return |
| Parser.IndentEndsNotCr | src/parser.rs:20-45 | no line of the re-indented output ends in a carriage return |
| Parser.NamedUnparser.constructor | src/parser.rs:51-55 | `named_unparse` starts at depth 0 with an empty table |
| Parser.NamedUnparser.AddEntry | src/parser.rs:61-68 | the entry is stored under (id, current depth), replacing any earlier one; the depth is unchanged |
| Parser.AddEntryOverwrites | src/parser.rs:61-68 | adding twice under one key keeps only the second kind and changes no other entry: this table has no duplicate check |
| Spans.New | src/parser/ast/span.rs:20-27 | `Span::new` puts both ends on row 1, with the given byte offsets as columns |
| Spans.CmpLexicographic | src/parser/ast/span.rs:58-73 | `Ord for Position` is lexicographic on (row, col), and it reports `Equal` exactly when `PartialEq` holds, which is exactly equality of the two positions |
| Spans.CmpAntisymmetric | src/parser/ast/span.rs:58-66 | swapping the operands swaps `Less` and `Greater` and keeps `Equal` |
| Spans.CmpTransitive | src/parser/ast/span.rs:58-66 | the ordering is transitive, strictly so when either step is strict |
| Spans.PositionOrderingCases | src/parser/ast/span.rs:131-172 | of the seven pairs in the `position_ordering` test, the comparison gives `Greater` only for the first; five give `Less` and the identical pair gives `Equal` |
| Spans.Min | src/parser/ast/span.rs:46 | `min` of two positions is one of them and is no greater than either |
| Spans.Max | src/parser/ast/span.rs:47 | `max` of two positions is one of them and is no smaller than either |
| Spans.Add | src/parser/ast/span.rs:41-50 | the sum of two spans starts at one of their starts, no later than either, and ends at one of their ends, no earlier than either |
| Spans.AddCommutative | src/parser/ast/span.rs:41-50 | span addition does not depend on the order of the operands |
| Spans.AddIdempotent | src/parser/ast/span.rs:41-50 | a span added to itself is itself |
| Spans.AddAssociative | src/parser/ast/span.rs:41-50 | span addition is associative |
| Spans.LineBytes | src/parser/ast/span.rs:107-110 | one entry per line of the input, each the UTF-8 byte length of that line |
| Spans.Correct | src/parser/ast/span.rs:79-104 | the loop computes the correction: both columns made 1-based, then each line costing its length plus 2 moves the start down when reached by it and the end likewise, stopping at the first line the end does not reach |
| Spans.CorrectNoLines | src/parser/ast/span.rs:80-81 | with no line lengths the correction only adds 1 to both columns |
| Spans.CorrectRows | src/parser/ast/span.rs:84-103 | rows never decrease, the end moves down at most once per line, and the start at most one line more than the end |
| Spans.CorrectEnd | src/parser/ast/span.rs:79-104 | the end moves down k rows exactly when it consumed the first k lines: its new column plus those lines' bytes and breaks is its old offset plus 1, and it is short of the next line |
| Spans.CorrectStartRetriesLaterLines | src/parser/ast/span.rs:90-95 | the start is checked again against every line the end consumes even after it failed an earlier one, so offset 5 on a first line of 10 bytes can end on row 2 |
| Positions.New | src/parser/ast/position.rs:12-21 | `Position::new` puts both ends on row 1, with the given byte offsets as columns |
| Positions.PositionTextAsSpan | src/parser/ast/position.rs:23-27 | a position prints as `[row, col]-[row, col]`, exactly as the span with the same two ends, and converting to a span and back is the identity |
| Positions.Correct | src/parser/ast/position.rs:30-55 | the loop of `Position::correct` computes the same correction as `Span::correct` on the two ends |
| Positions.CorrectNoLines | src/parser/ast/position.rs:31-32 | with no line lengths both columns only become 1-based |
| Positions.CorrectMovesDown | src/parser/ast/position.rs:35-54 | rows never decrease; the end moved down k rows exactly when it consumed the first k lines (its new column plus their bytes and breaks is its old offset plus 1) and it does not reach the next line |
| Positions.IdC | src/parser/ast/position.rs:296-300 | an identifier keeps its name and has its position corrected |
| Positions.ExpsC | src/parser/ast/position.rs:277-279 | argument lists are corrected element by element, keeping their length |
| Positions.StmtsC | src/parser/ast/position.rs:145-161 | statement lists are corrected element by element, keeping their length |
| Positions.FormalsC | src/parser/ast/position.rs:106-108 | formal lists are corrected element by element, keeping their length |
| Positions.DeclsC | src/parser/ast/position.rs:68-74 | the globals are corrected one by one, keeping their number |
| Positions.LiteralsUntouched | src/parser/ast/position.rs:190-206 | `true`, `false`, `magic` and the literals are left as they are |
| Positions.VarDeclOnlyName | src/parser/ast/position.rs:88-92 | a variable declaration corrects only its own name: its type and its initialiser keep their positions |
| Positions.ExpDebugKept | src/parser/ast/position.rs:190-294 | correcting an expression changes nothing in its rendering, since positions are not printed |
| Positions.ExpsDebugKept | src/parser/ast/position.rs:274-281 | correcting argument lists changes nothing in their rendering |
| Positions.LocDebugKept | src/parser/ast/position.rs:283-294 | correcting a location changes nothing in its rendering |
| Positions.LineDebugKept | src/parser/ast/position.rs:168-188 | correcting a line statement changes nothing in its rendering |
| Positions.VarDeclDebugKept | src/parser/ast/position.rs:88-92 | correcting a variable declaration changes nothing in its rendering |
| Positions.StmtDebugKept | src/parser/ast/position.rs:126-136 | correcting a statement changes nothing in its rendering |
| Positions.StmtsDebugKept | src/parser/ast/position.rs:145-161 | correcting a statement list changes nothing in its rendering |
| Positions.BlockDebugKept | src/parser/ast/position.rs:138-166 | correcting a block statement changes nothing in its rendering |
| Positions.FormalsDebugKept | src/parser/ast/position.rs:115-124 | correcting formals changes nothing in their rendering |
| Positions.DeclDebugKept | src/parser/ast/position.rs:76-113 | correcting a declaration changes nothing in its rendering |
| Positions.DeclsDebugKept | src/parser/ast/position.rs:68-74 | correcting the globals changes nothing in their rendering |
| Positions.ProgramDebugKept | src/parser/ast/position.rs:68-74 | `correct_position_rec` on a program changes nothing in how it prints; only positions move |
| Debug.TypePerfectPrefix | src/parser/ast/format.rs:43-53 | a type prints with the `perfect ` prefix exactly when it is one of the two perfect variants (for class names without spaces) |
| Debug.ExpsDebug | src/parser/ast/format.rs:8-10 | an argument list renders one text per argument |
| Debug.LiteralsDebug | src/parser/ast/format.rs:140-141 | a string literal is written without quotes, and an `i32` literal is written in decimal that reads back as the same value |
| Debug.MemberFieldDebug | src/parser/ast/format.rs:185-194 | a member field prints as its base, `--` and the field name, so the base's text is a prefix of it |
| Debug.VarDeclDebug | src/parser/ast/format.rs:34-41 | a variable declaration, with or without initialiser, ends in `;` and a newline |
| Debug.StmtDebug | src/parser/ast/format.rs:90-99 | every statement's rendering ends in a newline, as the unindented lines `add_tabs` re-indents require |
| Debug.StmtsDebug | src/parser/ast/format.rs:12-14 | a statement list renders one newline-terminated text per statement |
| Debug.BlockDebug | src/parser/ast/format.rs:101-110 | every block statement ends in a newline |
| Debug.IfElseDebug | src/parser/ast/format.rs:106-107 | an if-else prints as the `if` with its true branch followed by an `else {` block of its own |
| Debug.FormalsDebug | src/parser/ast/format.rs:80-88 | a formal list renders one text per formal |
| Debug.FnDeclDebug | src/parser/ast/format.rs:72-78 | a function declaration ends in a newline |
| Debug.FnDeclDebugShape | src/parser/ast/format.rs:72-78 | a function prints its header `name : (formals) type {` and newline, then its statements concatenated, then `}` and newline; the part after the header is just `}` and newline exactly when the body is empty |
| Debug.ClassDeclDebug | src/parser/ast/format.rs:66-70 | a class declaration ends in a newline |
| Debug.DeclDebug | src/parser/ast/format.rs:23-32 | every declaration ends in a newline |
| Debug.DeclsDebug | src/parser/ast/format.rs:17-21 | the globals render one newline-terminated text each |
| Debug.NewExps | src/parser/ast/format.rs:130-145 | converting an argument list to the newer AST keeps its length |
| Debug.TypeDebugAgrees | src/parser/ast/format.rs:43-64 | the older and the newer printer write the same text for the same type |
| Debug.ExpDebugAgrees | src/parser/ast/format.rs:130-182 | the older and the newer printer write the same text for every expression tree |
| Debug.ExpsDebugAgrees | src/parser/ast/format.rs:8-10 | they agree on argument lists, element by element |
| Debug.LocDebugAgrees | src/parser/ast/format.rs:185-194 | they agree on every location, member-field chains included |
| Display.PrimText | src/parser/ast/display.rs:53-63 | a primitive type prints as `int`, `bool` or `void`, and as nothing exactly for the variants the catch-all arm covers |
| Display.TypePerfectPrefix | src/parser/ast/display.rs:32-40 | a type prints with the `perfect ` prefix exactly when its perfect flag is set (for class names without spaces) |
| Display.BinaryOpRoundTrip | src/parser/ast/display.rs:178-196 | reading the printed operator back gives the operator: the twelve spellings are distinct |
| Display.ExpTexts | src/parser/ast/display.rs:226-228 | an argument list renders one text per argument |
| Display.UnaryTextShape | src/parser/ast/display.rs:156-170 | a unary expression prints as `-` or `!` immediately followed by its operand |
| Display.FieldLocShape | src/parser/ast/display.rs:210-218 | a member field prints as its base, `--` and the field name |
| Display.CallTextShape | src/parser/ast/display.rs:198-202 | a call prints as its name and `(`, the arguments joined by `, `, and `)`, one rendered piece per argument |
| Display.VarDeclText | src/parser/ast/display.rs:23-30 | a variable declaration, with or without initialiser, ends in `;` and a newline |
| Display.StmtText | src/parser/ast/display.rs:87-96 | every statement's rendering ends in a newline |
| Display.StmtTexts | src/parser/ast/display.rs:230-232 | a statement list renders one newline-terminated text per statement |
| Display.BlockText | src/parser/ast/display.rs:98-107 | every block statement ends in a newline |
| Display.FormalTexts | src/parser/ast/display.rs:77-85 | a formal list renders one text per formal |
| Display.FnDeclText | src/parser/ast/display.rs:71-75 | a function declaration ends in a newline |
| Display.ClassDeclText | src/parser/ast/display.rs:65-69 | a class declaration ends in a newline |
| Display.DeclText | src/parser/ast/display.rs:11-21 | every declaration ends in a newline |
| Display.DeclTexts | src/parser/ast/display.rs:5-9 | the globals render one newline-terminated text each |
| Display.FmtVecEndsWithNewline | src/parser/ast/display.rs:230-232 | concatenating newline-terminated pieces is empty exactly when there are none, and otherwise ends in a newline |
| Display.ProgramTextTerminated | src/parser/ast/display.rs:5-9 | a printed program is empty exactly when it has no declarations, and otherwise ends in a newline |
| SpanNode.IdS | src/parser/ast/span/node.rs:210-214 | an identifier keeps its name and has its span corrected |
| SpanNode.LocS | src/parser/ast/span/node.rs:190-195 | a location corrects its own span and keeps its shape (plain identifier or member field) |
| SpanNode.LocKindS | src/parser/ast/span/node.rs:197-208 | a plain identifier stays one, and a member field stays a member field |
| SpanNode.ExpS | src/parser/ast/span/node.rs:140-145 | an expression corrects its own span once, then its kind |
| SpanNode.UnaryS | src/parser/ast/span/node.rs:165-170 | a unary expression corrects its span and keeps its operator |
| SpanNode.BinaryS | src/parser/ast/span/node.rs:172-178 | a binary expression corrects its span and keeps its operator |
| SpanNode.CallS | src/parser/ast/span/node.rs:180-188 | a call corrects its span and keeps its number of arguments |
| SpanNode.ExpsS | src/parser/ast/span/node.rs:184-186 | each argument is corrected in place: same length, the i-th result is the i-th argument corrected |
| SpanNode.LineS | src/parser/ast/span/node.rs:111-116 | a line statement corrects its own span, then its kind |
| SpanNode.VarDeclS | src/parser/ast/span/node.rs:27-35 | a variable declaration corrects its name and its initialiser when there is one, and not its type |
| SpanNode.StmtsS | src/parser/ast/span/node.rs:88-105 | statement lists are corrected element by element at the same indices |
| SpanNode.FormalsS | src/parser/ast/span/node.rs:49-51 | formal lists are corrected element by element at the same indices |
| SpanNode.FnDeclS | src/parser/ast/span/node.rs:46-56 | a function corrects its name, formals and body, keeping their numbers, and not its return type |
| SpanNode.ClassDeclS | src/parser/ast/span/node.rs:37-44 | a class corrects its name and keeps its number of members |
| SpanNode.DeclsS | src/parser/ast/span/node.rs:9-11 | the globals are corrected element by element at the same indices |
| SpanNode.ProgramS | src/parser/ast/span/node.rs:7-13 | the program keeps its number of globals |
| SpanNode.LiteralKindsUntouched | src/parser/ast/span/node.rs:147-163 | the constants and literals fall into the wildcard arm and come back unchanged |
| SpanNode.ExpTextKept | src/parser/ast/span/node.rs:140-163 | correcting spans changes nothing in how an expression prints |
| SpanNode.ExpTextsKept | src/parser/ast/span/node.rs:184-186 | correcting spans changes nothing in how an argument list prints |
| SpanNode.LocTextKept | src/parser/ast/span/node.rs:190-208 | correcting spans changes nothing in how a location prints |
| SpanNode.LineTextKept | src/parser/ast/span/node.rs:111-138 | correcting spans changes nothing in how a line statement prints |
| SpanNode.VarDeclTextKept | src/parser/ast/span/node.rs:27-35 | correcting spans changes nothing in how a variable declaration prints |
| SpanNode.StmtTextKept | src/parser/ast/span/node.rs:69-79 | correcting spans changes nothing in how a statement prints |
| SpanNode.StmtTextsKept | src/parser/ast/span/node.rs:88-105 | correcting spans changes nothing in how a statement list prints |
| SpanNode.BlockTextKept | src/parser/ast/span/node.rs:81-109 | correcting spans changes nothing in how a block statement prints |
| SpanNode.FormalTextsKept | src/parser/ast/span/node.rs:58-67 | correcting spans changes nothing in how formals print |
| SpanNode.DeclTextKept | src/parser/ast/span/node.rs:15-25 | correcting spans changes nothing in how a declaration prints |
| SpanNode.DeclTextsKept | src/parser/ast/span/node.rs:9-11 | correcting spans changes nothing in how the globals print |
| SpanNode.ProgramTextKept | src/parser/ast/span/node.rs:7-13 | after `correct_span_rec` the program prints exactly as before |
| SpanNode.ProgramNode.constructor | src/parser/ast/span/node.rs:7-13 | the node holds the program's globals |
| SpanNode.ProgramNode.CorrectSpanRec | src/parser/ast/span/node.rs:7-13 | the loop over the globals corrects each in place at its own index, and the program prints as before |
| TypeAnalysis.ArgTypes | src/analysis/_type.rs:47-54 | one type per formal, in order: the declared type of a variable-declaration formal or of a plain formal |
| TypeAnalysis.FieldTypes | src/analysis/_type.rs:65-74 | there are no more field types than members, and a class of variables only gets all their types, in order |
| TypeAnalysis.FieldTypesSnoc | src/analysis/_type.rs:65-74 | one more member adds its type at the end exactly when it is a variable, so the field types are the variable members' types in declaration order, methods and nested classes excluded |
| TypeAnalysis.FieldTypesUpTo | src/analysis/_type.rs:65-74 | after `i + 1` members of the loop, the field types are those after `i` members, extended by member `i`'s type exactly when it is a variable |
| TypeAnalysis.ClassMethodsKeys | src/analysis/_type.rs:66-73 | registering a class's methods adds an entry `class--method` for each of them, keeps every earlier key, and changes no other entry |
| TypeAnalysis.ClassMethodSignature | src/analysis/_type.rs:41-43 | a method declared once in its class is registered under `class--method` with its own argument and return types |
| TypeAnalysis.MethodNameInjective | src/analysis/_type.rs:42 | two method names of one class never share a `class--method` key |
| TypeAnalysis.TypeAnalyzer.constructor | src/analysis/_type.rs:10-14 | `type_error_check` starts with both tables empty and the error flag off |
| TypeAnalysis.TypeAnalyzer.AddFn | src/analysis/_type.rs:37-39 | `add_fn` stores the signature under the function's own name, replacing any earlier one; classes and diagnostics are unchanged |
| TypeAnalysis.TypeAnalyzer.AddClassFn | src/analysis/_type.rs:41-43 | `add_class_fn` stores the signature under `class--method` and touches nothing else |
| TypeAnalysis.TypeAnalyzer.AddFnHelper | src/analysis/_type.rs:45-62 | the loop collects the argument types in order, and the signature with the return type replaces the entry under the given key |
| TypeAnalysis.TypeAnalyzer.AddClass | src/analysis/_type.rs:64-77 | the loop registers every method in member order and then stores the field types under the class name, replacing any earlier entry |
| TypeAnalysis.TypeAnalyzer.ReportError | src/analysis/_type.rs:79-103 | the error flag is set, whatever the kind, and the kind is appended to the diagnostics; the tables are unchanged |
| TypeNode.AnalyzeFnDecl | src/analysis/_type/type_node.rs:35-39 | a function declaration calls `add_fn` |
| TypeNode.AnalyzeClassDecl | src/analysis/_type/type_node.rs:29-33 | a class declaration calls `add_class` |
| TypeNode.AnalyzeDecl | src/analysis/_type/type_node.rs:17-27 | variables are skipped, classes and functions dispatched |
| TypeNode.AnalyzeProgram | src/analysis/_type/type_node.rs:9-15 | the globals are analysed in order and no diagnostic is reported |
| TypeNode.TypeErrorCheck | src/analysis/_type.rs:9-23 | fresh tables, the program analysed, and `Ok(())` whatever the flag says |
| TypeNode.DeclKeeps | src/analysis/_type/type_node.rs:17-27 | no declaration removes a registered function or class |
| TypeNode.DeclsKeep | src/analysis/_type/type_node.rs:9-15 | no sequence of declarations removes a registered function or class |
| TypeNode.ProgramRegisters | src/analysis/_type/type_node.rs:9-39 | after the analysis every global function is registered under its name, every class under its name, and every class method under `class--method` |
| TypeNode.VarDeclIgnored | src/analysis/_type/type_node.rs:22 | a global variable changes neither table |
| ThreeAC.StrKeyInjective | src/assembly/three_ac.rs:57 | different counters give different `str<N>` keys |
| ThreeAC.AddVarSpec | src/assembly/three_ac.rs:39-50 | a global name is bound to its initial value; a local is appended to its function's record when there is one, and otherwise an empty record is created and the name is dropped; nothing else changes |
| ThreeAC.AddFnSpec | src/assembly/three_ac.rs:52-54 | `add_fn` replaces the function's record by an empty one and keeps every other entry |
| ThreeAC.AddStringSpec | src/assembly/three_ac.rs:56-59 | the constant is stored under the next `str<N>` key and the counter moves on by one |
| ThreeAC.IncFnTmpsSpec | src/assembly/three_ac.rs:61-74 | nothing changes at global scope; otherwise the function's temporary count goes up by one, its record being created when missing, and its locals are kept |
| ThreeAC.StringKeysDistinct | src/assembly/three_ac.rs:56-59 | two strings added in a row are both kept, under consecutive keys |
| ThreeAC.IntermediateRepresentation.constructor | src/assembly/three_ac.rs:8-12 | `convert_3ac` starts with empty tables and counter 0 |
| ThreeAC.IntermediateRepresentation.AddVar | src/assembly/three_ac.rs:39-50 | the state after `add_var` is the one described above |
| ThreeAC.IntermediateRepresentation.AddFn | src/assembly/three_ac.rs:52-54 | the state after `add_fn` is the one described above |
| ThreeAC.IntermediateRepresentation.AddString | src/assembly/three_ac.rs:56-59 | the state after `add_string` is the one described above |
| ThreeAC.IntermediateRepresentation.IncFnTmps | src/assembly/three_ac.rs:61-74 | the state after `inc_fn_tmps` is the one described above |
| ThreeACNode.ApplyNumStr | src/assembly/three_ac.rs:56-59 | the string counter advances exactly once per string literal visited |
| ThreeACNode.ApplyStringPool | src/assembly/three_ac/three_ac_node.rs:220 | inside a function the k-th string literal visited is stored under `str<n+k>`, n being the counter before the walk |
| ThreeACNode.ApplyStringPoolOnly | src/assembly/three_ac/three_ac_node.rs:211-223 | inside a function the only global names a walk adds are the keys of its string literals |
| ThreeACNode.PoolKeepsUntouched | src/assembly/three_ac/three_ac_node.rs:220 | a global whose key no later literal takes keeps its value |
| ThreeACNode.ApplyTmps | src/assembly/three_ac/three_ac_node.rs:241-309 | inside a function its temporary count grows by exactly the number of unary, binary and call nodes visited, and no other function record changes |
| ThreeACNode.ApplyGlobalScope | src/assembly/three_ac.rs:61-65 | at global scope the walk never touches the function records |
| ThreeACNode.FindVarsExp | src/assembly/three_ac/three_ac_node.rs:201-223 | an expression is walked pre-order: unary, binary and call nodes count a temporary, string literals are pooled, the rest do nothing |
| ThreeACNode.FindVarsUnary | src/assembly/three_ac/three_ac_node.rs:241-245 | a unary node counts a temporary, then walks its operand |
| ThreeACNode.FindVarsBinary | src/assembly/three_ac/three_ac_node.rs:266-272 | a binary node counts a temporary, then walks both operands left to right |
| ThreeACNode.FindVarsCall | src/assembly/three_ac/three_ac_node.rs:303-309 | a call counts a temporary, then walks its arguments in order |
| ThreeACNode.FindVarsLine | src/assembly/three_ac/three_ac_node.rs:159-182 | a line statement walks only the source of an assignment, the output of `give`, the returned value and the call |
| ThreeACNode.FindVarsVarDecl | src/assembly/three_ac/three_ac_node.rs:58-61 | a variable declaration registers its name with no initial value, its initialiser not walked |
| ThreeACNode.FindVarsFormal | src/assembly/three_ac/three_ac_node.rs:85-94 | a formal registers its name with no initial value |
| ThreeACNode.FindVarsStmt | src/assembly/three_ac/three_ac_node.rs:105-112 | a statement dispatches to its block, line or declaration |
| ThreeACNode.FindVarsStmts | src/assembly/three_ac/three_ac_node.rs:131-143 | the body loops walk every statement in order |
| ThreeACNode.FindVarsBlock | src/assembly/three_ac/three_ac_node.rs:124-146 | a block walks its condition, then its body, or both branches of an if-else in order |
| ThreeACNode.FindVarsFnDecl | src/assembly/three_ac/three_ac_node.rs:71-78 | the function's name becomes a global without initial value, then its body (and not its formals) is walked inside the function |
| ThreeACNode.FnDeclEffect | src/assembly/three_ac/three_ac_node.rs:71-78 | a function declaration leaves its name among the globals, counts one temporary per unary, binary and call node of its body, and pools its string literals in order under consecutive keys |
| ThreeACNode.FirstLocalDropped | src/assembly/three_ac.rs:44-48 | a function's first local is lost when nothing created its record before: `add_var` then only creates the empty record |
| ThreeACNode.FindVarsDecl | src/assembly/three_ac/three_ac_node.rs:36-45 | variables and functions are walked, classes skipped |
| ThreeACNode.FindVarsProgram | src/assembly/three_ac/three_ac_node.rs:22-27 | the globals are walked in order |
| ThreeACNode.ApplyKeepsGlobals | src/assembly/three_ac/three_ac_node.rs:201-309 | no walk removes a global name |
| ThreeACNode.DeclsKeepGlobals | src/assembly/three_ac/three_ac_node.rs:22-27 | no sequence of declarations removes a global name |
| ThreeACNode.ProgramRegistersGlobals | src/assembly/three_ac/three_ac_node.rs:22-78 | after the walk at global scope every top-level variable and function name is a global |
| ThreeACNode.Convert3AC | src/assembly/three_ac.rs:7-16 | `convert_3ac` starts from empty tables and walks the program at global scope |
| ThreeACNode.ProgramConvert3ACNewlines | src/assembly/three_ac/three_ac_node.rs:29-33 | every declaration converts to the empty text, so the program converts to one newline fewer than it has declarations, or to nothing |
| X86.FrameBalanced | src/assembly/x86.rs:397-403 | the prologue reserves and the epilogue releases the same byte count, 8 per local, readable back out of both texts |
| X86.GetOperationQuad | src/assembly/x86.rs:405-417 | `NEG64` and `NOT64` both lower to `notq`, and exactly the eight known operators have a mnemonic; any other gives `""` |
| X86.CompareSuffix | src/assembly/x86.rs:306-314 | a condition suffix is produced exactly for the six comparison operators |
| X86.CompareSuffixRoundTrip | src/assembly/x86.rs:306-314 | the six suffixes are distinct: reading one back gives its comparison |
| X86.GetLoc | src/assembly/x86.rs:357-369 | a table hit gives its location with nothing to prepend; otherwise `24Kmagic` prepends the `magic` call and reads `%rdi`, `true` and `false` are `$1` and `$0`, and any other name gives an empty operand |
| X86.ParseLoc | src/assembly/x86.rs:371-382 | an operand that parses as `i32` becomes `$` followed by the token as written; any other is looked up with `get_loc` |
| X86.BracketedNameIsLookedUp | src/assembly/x86.rs:371-382 | an IR name in brackets is never an integer, so it is always looked up |
| X86.IntegerOperandIgnoresTable | src/assembly/x86.rs:371-394 | an integer operand has the same location and the `Int` kind whatever the table holds |
| X86.GetType | src/assembly/x86.rs:383-394 | the three reserved words are booleans, `i32` literals integers, a table entry gives its own kind, and an unknown name counts as an integer; `String` comes only from a table entry |
| X86.TranslateCompare | src/assembly/x86.rs:305-322 | the comparison template is produced exactly when the tokens reach the second operand (a panic in the source otherwise); it loads both operands into `%rax` and `%rbx`, sets `%al` by `set` plus the operator's condition code `CompareSuffix(ops[3])`, and ends by storing that byte into the destination |
| X86.TranslateMultdiv | src/assembly/x86.rs:294-303 | the multiply/divide template is produced exactly when the tokens reach the second operand; it loads both operands, applies the operator's one-operand mnemonic `GetOperationQuad(ops[3])` (`imulq`/`idivq`) to `%rbx`, and ends by moving `%rax` into the destination |
| X86.TranslateAssign | src/assembly/x86.rs:254-292 | an assignment fails exactly when it has fewer than three space-separated tokens; three is `TranslateCopy`, four `TranslateUnary`; with five or more a comparison goes to `TranslateCompare`, `MULT64`/`DIV64` to `TranslateMultdiv`, and any other operator to `TranslateBinary` |
| X86.TranslateCopy | src/assembly/x86.rs:259-268 | a copy of a non-literal source loads it into `%rax` through `get_loc` and ends by moving `%rax` into the destination |
| X86.TranslateUnary | src/assembly/x86.rs:271-275 | a unary assignment loads the operand into `%rax`, applies the operator's mnemonic `GetOperationQuad(ops[2])` to `%rax`, and ends by moving `%rax` into the destination |
| X86.TranslateBinary | src/assembly/x86.rs:284-291 | any other binary assignment loads both operands into `%rax` and `%rbx`, applies the operator's two-operand mnemonic `GetOperationQuad(ops[3])` as `%rbx,\t%rax`, and ends by moving `%rax` into the destination |
| X86.AssignLiteralImmediate | src/assembly/x86.rs:259-263 | a copy of an `i32` literal moves the parsed value, re-rendered in decimal, as an immediate, and that text reads back as the same value |
| X86.LiteralForms | src/assembly/x86.rs:262 | a copy renders `+007` as `$7`, while `parse_loc` keeps the token as `$+007` |
| X86.TranslateWrite | src/assembly/x86.rs:324-333 | a write is produced exactly when its trimmed line has a second token; it moves that operand into `%rdi` and ends by calling the printer for the operand's `GetType` kind (`printBool`/`printInt`/`printString`) |
| X86.TranslateRead | src/assembly/x86.rs:335-344 | a read is produced exactly when its trimmed line has a second token; it calls the operand's location and ends by moving `%rax` into the reader named for the operand's `GetType` kind (`getBool`/`getInt`/`getString`), in the order the source writes them |
| X86.RoutinesDistinct | src/assembly/x86.rs:326-330 | the three printers, and the three readers (x86.rs:337-341), are distinct, so the routine in the output names the operand's kind |
| X86.TranslateIf | src/assembly/x86.rs:346-351 | an `IFZ` line is produced exactly when it has four or more tokens, and the jump ends in its fourth token |
| X86.TranslateStatement | src/assembly/x86.rs:226-252 | `:=` wins over every other keyword, then `nop` copies the line; failing those and `leave`, a `WRITE` line is `TranslateWrite`; failing `WRITE` too, a `READ` line is `TranslateRead`; failing `READ` too, an `IFZ` line is `TranslateIf`; a line with no keyword produces the empty text (`leave` and `goto` are in `LeaveEmitsEpilogue` and `GotoJumpsToTarget`) |
| X86.LeaveEmitsEpilogue | src/assembly/x86.rs:233-237 | a `leave` line becomes its label, a prefix of the line, followed by the epilogue for the frame size |
| X86.GotoJumpsToTarget | src/assembly/x86.rs:247-250 | a `goto` line jumps to its second space-separated token |
| X86.GlobalEntry | src/assembly/x86.rs:114-148 | a line with a space is a string constant stored as `.asciz` under its label; any other line is `name-type`, reserved as `gbl_name: .quad 0`, a boolean exactly when the type is `bool`, and fails (a panic) without a `-`; every entry is global |
| X86.SplitHasSeparator | src/assembly/x86.rs:133 | splitting gives two or more pieces exactly when the separator occurs |
| X86.DropThroughEndMarker | src/assembly/x86.rs:101-110 | the lines kept are a prefix ending just before the last `[END GLOBALS]`, or none when the marker is missing |
| X86.GlobalLines | src/assembly/x86.rs:114-149 | one assembler line per global line |
| X86.GlobalLinesFailure | src/assembly/x86.rs:114-149 | a failing global line makes the whole globals section fail |
| X86.GlobalLinesKeys | src/assembly/x86.rs:148 | every processed global line is in the table under its key with `global` set |
| X86.GlobalLinesOnlyGlobals | src/assembly/x86.rs:148 | every entry after the globals section is global, or was already there unchanged |
| X86.TranslateGlobalsShape | src/assembly/x86.rs:83-152 | the output always begins with `.globl main`; with no globals it is nothing else and the table is unchanged; otherwise `.data` follows |
| X86.LocalSlotsDistinct | src/assembly/x86.rs:164 | different locals get different stack slots |
| X86.LocalEntry | src/assembly/x86.rs:157-168 | a `name-type` line becomes a non-global entry in slot i, a boolean exactly when the type is `bool`; a line without `-` fails |
| X86.PopulateSpec | src/assembly/x86.rs:154-172 | `populate_fn` returns the index of the last line, or 0 when there are none |
| X86.PopulateFailure | src/assembly/x86.rs:156-170 | a failing locals line makes the whole section fail |
| X86.PopulateSlots | src/assembly/x86.rs:156-170 | with distinct names the i-th local is in the table at slot i, non-global, with the kind its line names |
| X86.PopulateEntriesSome | src/assembly/x86.rs:156-170 | each line of a successful locals section has an entry |
| X86.PopulateKeepsOthers | src/assembly/x86.rs:156-170 | keys no line names keep their entries |
| X86.PopulateCountIsLastIndex | src/assembly/x86.rs:169-171 | the count returned is one less than the number of locals, so the frame it reserves is one slot smaller than the slots handed out |
| X86.ClearedTable | src/assembly/x86.rs:353-355 | `clear_fn` keeps exactly the non-global entries, unchanged, so it is the globals that go |
| X86.StatementsSpec | src/assembly/x86.rs:219-221 | one translated statement per code line |
| X86.StatementsFailure | src/assembly/x86.rs:219-221 | a failing statement makes the whole body fail |
| X86.TranslateFnNoGlobals | src/assembly/x86.rs:174-207 | a function section with a code part leaves no global entry behind |
| X86.FunctionsDropGlobals | src/assembly/x86.rs:19-21 | once one function with a code part is translated no global is left in the table, so later functions see globals as empty operands |
| X86.PopulateGlobalsKept | src/assembly/x86.rs:154-172 | `populate_fn` adds only local entries: every global entry was already there with the same value |
| X86.FunctionsFailure | src/assembly/x86.rs:19-21 | a failing function section makes the whole program fail |
| X86.JoinEndsWith | src/assembly/x86.rs:25 | a joined list ends with its last part |
| X86.ConvertX86Shape | src/assembly/x86.rs:5-26 | every translated program ends with the exit system call and a newline, and starts with `.globl main` when it has a globals section |
| X86.GlobalsTableAllGlobal | src/assembly/x86.rs:83-152 | after the globals section, starting from an empty table, every entry is global |
| X86.PopEndMarker | src/assembly/x86.rs:101-110 | the `pop_back` loop keeps the lines before the last `[END GLOBALS]` |
| X86.FnSymbolTableWrapper.constructor | src/assembly/x86.rs:9 | the table starts empty |
| X86.FnSymbolTableWrapper.TranslateGlobals | src/assembly/x86.rs:83-152 | the text returned and the new table are those the globals section describes |
| X86.FnSymbolTableWrapper.AddGlobalLines | src/assembly/x86.rs:114-149 | the loop stores each global line's entry and returns its assembler lines |
| X86.FnSymbolTableWrapper.PopulateFn | src/assembly/x86.rs:154-172 | the loop stores each local in its slot and returns the last index |
| X86.FnSymbolTableWrapper.ClearFn | src/assembly/x86.rs:353-355 | the table becomes its non-global entries |
| X86.FnSymbolTableWrapper.TranslateStatements | src/assembly/x86.rs:219-221 | the loop translates the code lines in order into exactly the outputs of `StatementsSpec`, stopping with a failure at the first line whose translation panics; the table is not changed |
| X86.FnSymbolTableWrapper.TranslateFnCode | src/assembly/x86.rs:209-224 | the second line names the function and gets the prologue, every further line is a statement; the table is not changed |
| X86.FnSymbolTableWrapper.TranslateFn | src/assembly/x86.rs:174-207 | a section without a locals or a code part gives the empty text; otherwise locals are populated, the code translated, and the table cleared |
| X86.FnSymbolTableWrapper.TranslateFns | src/assembly/x86.rs:19-21 | the function sections are translated in order, each from the table the previous one left; the outputs and the final table are those of `FunctionsSpec`, and any failing section fails the whole loop |
| X86.ConvertX86 | src/assembly/x86.rs:5-26 | the output is the globals section, `.text`, every function in order, the exit syscall and an empty line, joined with newlines |
| X86.TranslateSections | src/assembly/x86.rs:12-25 | the sections after the dropped first one give the same output |
| Names.ArgAdd | src/analysis/name.rs:205-222 | a name not yet in the argument table is recorded with its type and the table grows by one; a name already present keeps its first type and the table is unchanged; every other name looks up as before |
| Names.ArgsAddFirstWins | src/analysis/name.rs:205-222 | after adding a list of formals, a name keeps the type it already had, or else gets the type of its first formal; later duplicates are ignored |
| Names.ArgTypeTexts | src/analysis/name.rs:224-226 | one `Display` text per argument, in table order |
| Names.ReportErrorSpec | src/analysis/name.rs:76-83 | the error flag is set and the error kind recorded; depth, table and class maps stay as they were |
| Names.AddEntrySpec | src/analysis/name.rs:45-74 | a void variable reports BadType; a name already declared at the current depth reports MultipleDecl; the entry is inserted at the current depth exactly when neither happened; the flag is set exactly when an error was reported |
| Names.AddClassEntrySpec | src/analysis/name.rs:85-100 | the first field of a class creates its map; a field already in the map reports MultipleDecl and changes nothing; a new field is added; other classes and the symbol table are untouched |
| Names.AddEntries | src/analysis/name.rs:102-108 | repeated `add_entry` under one name never changes the depth or the class maps, and never clears the error flag |
| Names.FieldKinds | src/analysis/name.rs:104-108 | the field kinds of a class, one per name, in the order the map yields them |
| Names.AddEntriesOneKey | src/analysis/name.rs:102-108 | only the key `(var--class, depth)` can be added, and existing entries are kept |
| Names.AddEntriesRepeated | src/analysis/name.rs:104-108 | since every field is declared under the same name, two or more fields always end with the error flag set |
| Names.AddClassInstanceEffect | src/analysis/name.rs:102-113 | an unknown class reports UndefinedDecl and nothing else; a known class adds at most the instance key; a class with two or more fields always sets the error flag |
| Names.RemoveScopeSpec | src/analysis/name.rs:115-117 | exactly the entries at the given depth are dropped; the others keep their kinds |
| Names.KeysBelow | src/analysis/name.rs:122-127 | the keys tried are the name at depths scope-1 down to 0, in that order |
| Names.FindEntrySpec | src/analysis/name.rs:119-140 | a hit leaves the state unchanged; a miss reports UndefinedDecl |
| Names.FindEntryInnermost | src/analysis/name.rs:119-140 | a lookup succeeds exactly when the name is declared at some depth below the current one, and then returns the innermost such declaration |
| Names.FindEntrySkipsCurrentDepth | src/analysis/name.rs:122-127 | a declaration at the current depth alone is never found |
| Names.FindEntryAtGlobalDepth | src/analysis/name.rs:119-140 | at depth 0 every lookup fails and reports UndefinedDecl |
| Names.AddEntryThenFind | src/analysis/name.rs:45-74 | a fresh non-void declaration is found, with its kind, from one level deeper |
| Names.NamedUnparser.constructor | src/analysis/name.rs:13-18 | the unparser starts at depth 0 with empty tables and the flag clear |
| Names.NamedUnparser.ReportError | src/analysis/name.rs:76-83 | the new state is `ReportErrorSpec` of the old one |
| Names.NamedUnparser.AddEntry | src/analysis/name.rs:45-74 | the new state is `AddEntrySpec` of the old one |
| Names.NamedUnparser.AddClassEntry | src/analysis/name.rs:85-100 | the new state is `AddClassEntrySpec` of the old one |
| Names.NamedUnparser.AddClassInstance | src/analysis/name.rs:102-113 | the new state is `AddClassInstanceSpec` of the old one, for the order the field map is listed in |
| Names.NamedUnparser.RemoveScope | src/analysis/name.rs:115-117 | the new state is `RemoveScopeSpec` of the old one |
| Names.NamedUnparser.FindEntry | src/analysis/name.rs:119-140 | the two loops return the kind `FindEntrySpec` finds and leave the state it gives |
| NamedNode.CloseScope | src/analysis/name/named_node.rs:209-210 | closing a scope drops exactly the entries at the current depth and lowers the depth by one, leaving the class maps and the diagnostics alone |
| NamedNode.IdNamed | src/analysis/name/named_node.rs:368-375 | a name renders empty exactly when its lookup reported an error; rendering only looks up, so the table, the classes and the depth stay, and the only new diagnostics are UndefinedDecl |
| NamedNode.IdResolves | src/analysis/name/named_node.rs:368-375 | an identifier renders non-empty exactly when it is declared below the current depth, and then as `name{kind}` with the innermost declaration's kind |
| NamedNode.GetIdNamedString | src/analysis/name/named_node.rs:307-322 | a plain name or a field access looks up one name (the field's), renders empty exactly on a failed lookup, and changes nothing but the diagnostics |
| NamedNode.LocHelper | src/analysis/name/named_node.rs:333-366 | every location, however long its chain of field accesses, renders as the lookup of its root identifier; the accumulated path is never used |
| NamedNode.LocNamed | src/analysis/name/named_node.rs:301-305 | rendering a location only looks names up |
| NamedNode.ExpNamed | src/analysis/name/named_node.rs:258-280 | rendering an expression keeps the table, the classes and the depth, and adds only UndefinedDecl diagnostics |
| NamedNode.UnaryNamed | src/analysis/name/named_node.rs:282-286 | rendering a unary expression only looks names up |
| NamedNode.BinaryNamed | src/analysis/name/named_node.rs:288-292 | rendering a binary expression only looks names up |
| NamedNode.CallNamed | src/analysis/name/named_node.rs:294-299 | rendering a call only looks names up |
| NamedNode.UnaryNamedShape | src/analysis/name/named_node.rs:282-286 | a unary expression renders as `-` or `!` immediately followed by its operand's named rendering, and leaves the unparser as the operand does |
| NamedNode.BinaryNamedShape | src/analysis/name/named_node.rs:288-292 | a binary expression renders as the left operand's rendering, the operator between single spaces, then the right operand's rendering, which is produced after the left one |
| NamedNode.CallNamedShape | src/analysis/name/named_node.rs:294-299 | a call renders as the lookup of its name, `(`, the arguments' renderings joined by `, `, and `)`, one piece per argument, the arguments rendered after the name |
| NamedNode.ExpsNamed | src/analysis/name/named_node.rs:20-26 | one text per argument, in order, and the walk only looks names up |
| NamedNode.ExpNamedWithoutNames | src/analysis/name/named_node.rs:264-292 | an expression with no location and no call renders as its plain `Display` text and reports nothing |
| NamedNode.LineNamed | src/analysis/name/named_node.rs:240-256 | rendering a line statement only looks names up |
| NamedNode.LineNamedShape | src/analysis/name/named_node.rs:240-256 | each statement kind renders as `lhs = rhs`, `x--`, `x++`, `give e`, `take x`, `return e` or `return`, the exit sentence, or the call's rendering, around its parts' named renderings |
| NamedNode.VarDeclNamed | src/analysis/name/named_node.rs:66-74 | a declaration adds its name at the current depth as `add_entry` does, and renders as the annotated declaration followed by `;` |
| NamedNode.VarDeclAnnotatesDisplay | src/analysis/name/named_node.rs:66-84 | the rendering is the `Display` text of the declaration with `{type}` inserted after the name and the final newline removed |
| NamedNode.StmtNamed | src/analysis/name/named_node.rs:187-196 | a statement keeps the depth and the classes and leaves the entries of the enclosing depths alone |
| NamedNode.StmtsNamed | src/analysis/name/named_node.rs:12-18 | one text per statement, in order, with the same guarantee as a single statement |
| NamedNode.BlockNamed | src/analysis/name/named_node.rs:198-238 | a while, if or if-else body is rendered one level deeper; afterwards that level is empty, the depth is restored and the outer entries are unchanged |
| NamedNode.IfElseSharesDepth | src/analysis/name/named_node.rs:224-235 | both branches of an if-else share one depth, so declaring the same fresh name in each reports MultipleDecl |
| NamedNode.FormalNamed | src/analysis/name/named_node.rs:172-185 | a formal is declared at the current depth as `add_entry` does |
| NamedNode.FormalsNamed | src/analysis/name/named_node.rs:161-163 | one text per formal, in order; the depth, the classes and the outer entries stay |
| NamedNode.ProcessFn | src/analysis/name/named_node.rs:116-139 | the depth goes up by one and stays up; the symbol is a function of the given return type mapping each formal name to the type of its first formal with that name |
| NamedNode.FnStringNamed | src/analysis/name/named_node.rs:154-170 | the body is rendered before the formals are declared; the depth, the classes and the outer entries stay |
| NamedNode.FnDeclNamed | src/analysis/name/named_node.rs:141-152 | a function leaves the depth one higher than on entry, the classes unchanged and the entries up to the entry depth untouched |
| NamedNode.FnDeclRegistersName | src/analysis/name/named_node.rs:141-152 | the function symbol lands at depth+1 and stays there; an entry already there is kept and MultipleDecl is reported |
| NamedNode.FormalNotVisibleInBody | src/analysis/name/named_node.rs:154-163 | a body that uses its own formal cannot see it, since the formal is declared only after the body: UndefinedDecl is reported |
| NamedNode.MemberNamed | src/analysis/name/named_node.rs:90-106 | a field becomes a class entry; a method runs `process_fn`, becomes a class entry and is rendered at the raised depth; a nested class is skipped; registered fields are never lost |
| NamedNode.MembersNamed | src/analysis/name/named_node.rs:86-114 | the depth grows by one per method, and every field and method ends up in the class map |
| NamedNode.ClassDeclNamed | src/analysis/name/named_node.rs:86-114 | a class renders inside the frame `id{id} : class {` newline … `};` newline, leaves every one of its fields and methods in its class map, and raises the depth by its number of methods |
| NamedNode.ClassWithOneField | src/analysis/name/named_node.rs:86-114 | a class with one field renders it inside `id{id} : class {...};` and records it with its type |
| NamedNode.DeclNamed | src/analysis/name/named_node.rs:37-47 | a global declaration raises the depth by what it leaves raised and never touches entries below the starting depth |
| NamedNode.DeclsNamed | src/analysis/name/named_node.rs:29-35 | one text per global, in order; the depth only grows and the entries below the start stay |
| NamedNode.NamedUnparseSpec | src/analysis/name.rs:12-30 | when an error was reported the result is empty; otherwise it is the re-indented rendering (which is also empty for a program with no globals, so an empty result does not imply an error); the flag is set exactly when a diagnostic was recorded |
| NamedNode.VoidGlobalRejected | src/analysis/name.rs:12-30 | a program whose first global is a void variable yields the empty text |
| NamedNode.SecondFunctionDeeper | src/analysis/name/named_node.rs:141-152 | since each function leaves the depth raised, a second global function is registered one level deeper than the first |
| NamedNode.UnparseId | src/analysis/name/named_node.rs:368-375 | the text and the new unparser state are those of `IdNamed` |
| NamedNode.UnparseLocHelper | src/analysis/name/named_node.rs:333-366 | the text and the new state are those of `LocHelper` |
| NamedNode.UnparseExp | src/analysis/name/named_node.rs:258-280 | the text and the new state are those of `ExpNamed` |
| NamedNode.UnparseUnary | src/analysis/name/named_node.rs:282-286 | the text and the new state are those of `UnaryNamed` |
| NamedNode.UnparseBinary | src/analysis/name/named_node.rs:288-292 | the text and the new state are those of `BinaryNamed` |
| NamedNode.UnparseCall | src/analysis/name/named_node.rs:294-299 | the text and the new state are those of `CallNamed` |
| NamedNode.UnparseExpVec | src/analysis/name/named_node.rs:20-26 | the texts of `ExpsNamed` joined by the separator, and its final state |
| NamedNode.UnparseLine | src/analysis/name/named_node.rs:240-256 | the text and the new state are those of `LineNamed` |
| NamedNode.UnparseVarDecl | src/analysis/name/named_node.rs:66-74 | the text and the new state are those of `VarDeclNamed` |
| NamedNode.UnparseStmt | src/analysis/name/named_node.rs:187-196 | the text and the new state are those of `StmtNamed` |
| NamedNode.UnparseStmtVec | src/analysis/name/named_node.rs:12-18 | the texts of `StmtsNamed` joined by the separator, and its final state |
| NamedNode.UnparseBlock | src/analysis/name/named_node.rs:198-238 | the text and the new state are those of `BlockNamed` |
| NamedNode.UnparseFormal | src/analysis/name/named_node.rs:172-185 | the text and the new state are those of `FormalNamed` |
| NamedNode.UnparseFormalVec | src/analysis/name/named_node.rs:161-163 | the texts of `FormalsNamed` joined by `", "`, and its final state |
| NamedNode.UnparseProcessFn | src/analysis/name/named_node.rs:116-139 | the symbol and the new state are those of `ProcessFn` |
| NamedNode.UnparseFnString | src/analysis/name/named_node.rs:154-170 | the text and the new state are those of `FnStringNamed` |
| NamedNode.UnparseFnDecl | src/analysis/name/named_node.rs:141-152 | the text and the new state are those of `FnDeclNamed` |
| NamedNode.UnparseMember | src/analysis/name/named_node.rs:90-106 | the texts and the new state are those of `MemberNamed` |
| NamedNode.UnparseMembers | src/analysis/name/named_node.rs:89-106 | the loop's outputs and final state are those of `MembersNamed` |
| NamedNode.UnparseClassDecl | src/analysis/name/named_node.rs:86-114 | the text and the new state are those of `ClassDeclNamed` |
| NamedNode.UnparseDecl | src/analysis/name/named_node.rs:37-47 | the text and the new state are those of `DeclNamed` |
| NamedNode.UnparseProgram | src/analysis/name/named_node.rs:29-35 | the texts of `DeclsNamed` joined by newlines, and its final state |
| NamedNode.NamedUnparse | src/analysis/name.rs:12-30 | a fresh unparser's result is `NamedUnparseSpec` of the program |
| ParserNames.ArgAdd | src/parser/named_unparser.rs:157-178 | a name already in the argument table is refused with `Err("<name> is already in the arg table")` and the table is unchanged; otherwise `Ok`, the name gets its type and the table grows by one; other names look up as before |
| ParserNames.ArgsAddFirstWins | src/parser/named_unparser.rs:157-178 | since a refused duplicate leaves the table alone, each name ends up with the type it had, or else that of its first formal |
| ParserNames.ArgTypeTexts | src/parser/named_unparser.rs:180-182 | one printed type per entry, in table order |
| ParserNames.ReportErrorSpec | src/parser/named_unparser.rs:46-53 | the flag is set and the error kind recorded; depth, table and class maps stay |
| ParserNames.AddEntrySpec | src/parser/named_unparser.rs:15-44 | a `void` or `perfect void` variable reports BadType; a key already at the current depth reports MultipleDecl; the entry is inserted exactly when neither happened, and the flag is set exactly when one did |
| ParserNames.AddClassEntrySpec | src/parser/named_unparser.rs:55-70 | the first field of a class creates its map; a duplicate field reports MultipleDecl and changes nothing; a new field is added; other classes and the table stay |
| ParserNames.AddEntries | src/parser/named_unparser.rs:72-78 | repeated `add_entry` under one name keeps the depth and the classes and never clears the flag |
| ParserNames.FieldKinds | src/parser/named_unparser.rs:75-77 | the field kinds of a class, one per name, in the order the map yields them |
| ParserNames.AddEntriesRepeated | src/parser/named_unparser.rs:75-77 | every field goes under the same `var--class` name, so two or more fields always set the error flag |
| ParserNames.AddEntriesOneKey | src/parser/named_unparser.rs:72-78 | only the instance key at the current depth can be added, and existing entries are kept |
| ParserNames.AddClassInstanceEffect | src/parser/named_unparser.rs:72-83 | an unknown class reports UndefinedDecl and nothing else; a known one adds at most the instance key; two or more fields always set the flag |
| ParserNames.RemoveScopeSpec | src/parser/named_unparser.rs:85-87 | exactly the entries at the given depth are dropped; the others keep their kinds |
| ParserNames.ArgMap.constructor | src/parser/named_unparser/named_node.rs:123 | the argument map starts empty |
| ParserNames.ArgMap.Add | src/parser/named_unparser.rs:157-178 | the new entries and the returned outcome are those of `ArgAdd` |
| ParserNames.NamedUnparser.constructor | src/parser/named_unparser.rs:111-116 | the unparser starts at depth 0 with empty tables and the flag clear |
| ParserNames.NamedUnparser.ReportError | src/parser/named_unparser.rs:46-53 | the new state is `ReportErrorSpec` of the old one |
| ParserNames.NamedUnparser.AddEntry | src/parser/named_unparser.rs:15-44 | the new state is `AddEntrySpec` of the old one |
| ParserNames.NamedUnparser.AddClassEntry | src/parser/named_unparser.rs:55-70 | the new state is `AddClassEntrySpec` of the old one |
| ParserNames.NamedUnparser.AddClassInstance | src/parser/named_unparser.rs:72-83 | the new state is `AddClassInstanceSpec` of the old one, for the order the field map is listed in |
| ParserNames.NamedUnparser.RemoveScope | src/parser/named_unparser.rs:85-87 | the new state is `RemoveScopeSpec` of the old one |
| ParserNamedNode.CloseScope | src/parser/named_unparser/named_node.rs:217-218 | closing a scope drops exactly the entries at the current depth and lowers the depth by one, leaving the class maps and the diagnostics alone |
| ParserNamedNode.LookupSkipsMiddleDepths | src/parser/named_unparser/named_node.rs:326-349 | a declaration strictly between depth 0 and the current depth is never found, even when it is the only one of its name |
| ParserNamedNode.GetIdNamedString | src/parser/named_unparser/named_node.rs:326-349 | the lookup tries the current depth, then depth 0; a miss adds exactly one UndefinedDecl and nothing else changes |
| ParserNamedNode.IdNamed | src/parser/named_unparser/named_node.rs:398-420 | rendering an identifier only looks its name up |
| ParserNamedNode.IdResolves | src/parser/named_unparser/named_node.rs:398-420 | the identifier's own two-key lookup agrees with `get_id_named_string`; it renders non-empty exactly when the name is declared at the current depth or at depth 0, the current depth winning |
| ParserNamedNode.LocHelper | src/parser/named_unparser/named_node.rs:360-396 | every location, however long its chain of field accesses, renders as the lookup of its root identifier; the accumulated path is never used |
| ParserNamedNode.LocNamed | src/parser/named_unparser/named_node.rs:320-324 | rendering a location only looks names up |
| ParserNamedNode.ExpNamed | src/parser/named_unparser/named_node.rs:266-282 | rendering an expression keeps the table, the classes and the depth, and adds only UndefinedDecl diagnostics |
| ParserNamedNode.UnaryNamed | src/parser/named_unparser/named_node.rs:284-292 | rendering a negation or a not only looks names up |
| ParserNamedNode.BinaryNamed | src/parser/named_unparser/named_node.rs:294-311 | rendering a binary expression only looks names up |
| ParserNamedNode.CallNamed | src/parser/named_unparser/named_node.rs:314-318 | rendering a call only looks names up |
| ParserNamedNode.UnaryNamedShape | src/parser/named_unparser/named_node.rs:284-292 | a negation renders as `-` and a not as `!`, immediately followed by the operand's named rendering, leaving the unparser as the operand does |
| ParserNamedNode.BinaryNamedShape | src/parser/named_unparser/named_node.rs:294-311 | each of the twelve binary forms renders as the left operand's rendering, its operator's spelling between single spaces, then the right operand's rendering, which is produced after the left one |
| ParserNamedNode.CallNamedShape | src/parser/named_unparser/named_node.rs:314-318 | a call renders as the lookup of its name, `(`, the arguments' renderings joined by `, `, and `)`, one piece per argument, the arguments rendered after the name |
| ParserNamedNode.ExpsNamed | src/parser/named_unparser/named_node.rs:20-26 | one text per argument, in order, and the walk only looks names up |
| ParserNamedNode.ExpNamedWithoutNames | src/parser/named_unparser/named_node.rs:266-311 | an expression with no location and no call renders as its plain printed text and reports nothing |
| ParserNamedNode.LineNamed | src/parser/named_unparser/named_node.rs:248-264 | rendering a line statement only looks names up |
| ParserNamedNode.LineNamedShape | src/parser/named_unparser/named_node.rs:248-264 | each statement kind renders as `lhs = rhs`, `x--`, `x++`, `give e`, `take x`, `return e` or `return`, the exit sentence, or the call's rendering, around its parts' named renderings |
| ParserNamedNode.VarDeclNamed | src/parser/named_unparser/named_node.rs:72-80 | a declaration adds its name at the current depth as `add_entry` does, and renders as the annotated declaration followed by `;` |
| ParserNamedNode.StmtNamed | src/parser/named_unparser/named_node.rs:195-204 | a statement keeps the depth and the classes and leaves the entries of the enclosing depths alone |
| ParserNamedNode.StmtsNamed | src/parser/named_unparser/named_node.rs:12-18 | one text per statement, in order, with the same guarantee as a single statement |
| ParserNamedNode.BlockNamed | src/parser/named_unparser/named_node.rs:206-246 | a block body is rendered one level deeper; afterwards that level is empty, the depth is restored and the outer entries are unchanged |
| ParserNamedNode.EnclosingLocalHidden | src/parser/named_unparser/named_node.rs:326-349 | inside a block a local of the enclosing body is not found, since only the block's own depth and depth 0 are tried: UndefinedDecl is reported |
| ParserNamedNode.AddFormals | src/parser/named_unparser/named_node.rs:125-137 | declaring the formals in order keeps the depth and the classes and never loses an entry |
| ParserNamedNode.FormalNamed | src/parser/named_unparser/named_node.rs:180-193 | a formal is declared at the current depth as `add_entry` does |
| ParserNamedNode.FormalsNamed | src/parser/named_unparser/named_node.rs:169-171 | one text per formal; the formals are declared exactly as `process_fn` declares them |
| ParserNamedNode.ProcessFn | src/parser/named_unparser/named_node.rs:122-146 | the formals are declared one level deeper and the depth is lowered again; the symbol maps each formal name to the type of its first formal with that name |
| ParserNamedNode.ProcessFnLeavesFormal | src/parser/named_unparser/named_node.rs:122-146 | a non-void first formal whose name is free one level deeper stays in the table at that depth |
| ParserNamedNode.FnStringNamed | src/parser/named_unparser/named_node.rs:162-178 | the body and then the re-declared formals keep the depth and the classes and leave the outer entries alone |
| ParserNamedNode.FnDeclNamed | src/parser/named_unparser/named_node.rs:148-160 | a function leaves the depth where it was, the entries up to it kept, and nothing left one level deeper |
| ParserNamedNode.FnDeclRegistersName | src/parser/named_unparser/named_node.rs:148-160 | a function name free at the entry depth is registered there with its symbol |
| ParserNamedNode.FormalSeenThenRedeclared | src/parser/named_unparser/named_node.rs:148-178 | the body sees the formal `process_fn` left, then the formal is declared again, so the only diagnostic is one MultipleDecl |
| ParserNamedNode.MemberNamed | src/parser/named_unparser/named_node.rs:96-111 | a field becomes a class entry; a method runs `process_fn`, becomes a class entry and is rendered; a nested class is skipped; the depth is kept and registered fields are never lost |
| ParserNamedNode.MembersNamed | src/parser/named_unparser/named_node.rs:92-120 | every field and method ends up in the class map and the depth is kept |
| ParserNamedNode.ClassDeclNamed | src/parser/named_unparser/named_node.rs:92-120 | a class renders inside the frame `id{id} : class {` newline … `};` newline, leaves every one of its fields and methods in its class map, and keeps the depth |
| ParserNamedNode.DeclNamed | src/parser/named_unparser/named_node.rs:43-53 | a global declaration keeps the depth and never touches entries below it |
| ParserNamedNode.DeclsNamed | src/parser/named_unparser/named_node.rs:35-41 | one text per global, in order; the depth is kept |
| ParserNamedNode.ProgramNamed | src/parser/named_unparser/named_node.rs:35-41 | rendering a program from a fresh unparser ends at depth 0 |
| ParserNamedNode.GlobalFunctionsAtDepthZero | src/parser/named_unparser/named_node.rs:148-160 | two global functions are both registered at depth 0 and the depth is 0 after them |
| ParserNamedNode.FunctionVisibleFromNextBody | src/parser/named_unparser/named_node.rs:326-349 | from depth 1 a lookup falls back to depth 0, so a later function's body sees an earlier function |
| ParserNamedNode.UnparseGetIdNamedString | src/parser/named_unparser/named_node.rs:326-349 | the text and the new unparser state are those of `GetIdNamedString` |
| ParserNamedNode.UnparseId | src/parser/named_unparser/named_node.rs:398-420 | the text and the new state are those of `IdNamed` |
| ParserNamedNode.UnparseLocHelper | src/parser/named_unparser/named_node.rs:360-396 | the text and the new state are those of `LocHelper` |
| ParserNamedNode.UnparseExp | src/parser/named_unparser/named_node.rs:266-282 | the text and the new state are those of `ExpNamed` |
| ParserNamedNode.UnparseUnary | src/parser/named_unparser/named_node.rs:284-292 | the text and the new state are those of `UnaryNamed` |
| ParserNamedNode.UnparseBinary | src/parser/named_unparser/named_node.rs:294-311 | the text and the new state are those of `BinaryNamed` |
| ParserNamedNode.UnparseCall | src/parser/named_unparser/named_node.rs:314-318 | the text and the new state are those of `CallNamed` |
| ParserNamedNode.UnparseExpVec | src/parser/named_unparser/named_node.rs:20-26 | the texts of `ExpsNamed` joined by the separator, and its final state |
| ParserNamedNode.UnparseLine | src/parser/named_unparser/named_node.rs:248-264 | the text and the new state are those of `LineNamed` |
| ParserNamedNode.UnparseVarDecl | src/parser/named_unparser/named_node.rs:72-80 | the text and the new state are those of `VarDeclNamed` |
| ParserNamedNode.UnparseStmt | src/parser/named_unparser/named_node.rs:195-204 | the text and the new state are those of `StmtNamed` |
| ParserNamedNode.UnparseStmtVec | src/parser/named_unparser/named_node.rs:12-18 | the texts of `StmtsNamed` joined by the separator, and its final state |
| ParserNamedNode.UnparseBlock | src/parser/named_unparser/named_node.rs:206-246 | the text and the new state are those of `BlockNamed` |
| ParserNamedNode.UnparseFormal | src/parser/named_unparser/named_node.rs:180-193 | the text and the new state are those of `FormalNamed` |
| ParserNamedNode.UnparseFormalVec | src/parser/named_unparser/named_node.rs:169-171 | the texts of `FormalsNamed` joined by `", "`, and its final state |
| ParserNamedNode.UnparseProcessFn | src/parser/named_unparser/named_node.rs:122-146 | the symbol and the new state are those of `ProcessFn` |
| ParserNamedNode.UnparseFnString | src/parser/named_unparser/named_node.rs:162-178 | the text and the new state are those of `FnStringNamed` |
| ParserNamedNode.UnparseFnDecl | src/parser/named_unparser/named_node.rs:148-160 | the text and the new state are those of `FnDeclNamed` |
| ParserNamedNode.UnparseMember | src/parser/named_unparser/named_node.rs:96-111 | the texts and the new state are those of `MemberNamed` |
| ParserNamedNode.UnparseMembers | src/parser/named_unparser/named_node.rs:95-112 | the loop's outputs and final state are those of `MembersNamed` |
| ParserNamedNode.UnparseClassDecl | src/parser/named_unparser/named_node.rs:92-120 | the text and the new state are those of `ClassDeclNamed` |
| ParserNamedNode.UnparseDecl | src/parser/named_unparser/named_node.rs:43-53 | the text and the new state are those of `DeclNamed` |
| ParserNamedNode.UnparseProgram | src/parser/named_unparser/named_node.rs:35-41 | the texts of `DeclsNamed` joined by newlines, and its final state |

## Left out

- The Logos lexers, the LALRPOP parsers and their tests, and the lexer tests are not part of this model. Their behaviour is generated from grammars and derive macros whose sources are not shown.
- The runtime C library and the integration test are left out: they are stdio, clock, random and file-system calls.
- `run` in src/lib.rs (lines 44-65) is left out because it is file I/O around the passes modelled here.
- Printed diagnostics (`eprintln!`, `println!`) are not modelled as output. Each report sets the sticky flag and appends its error kind; the message text and position are dropped.
- `HashMap` iteration order is not modelled. Where the source walks a map, the order is a parameter (`order` in `AddClassInstance`) or the insertion order (`get_types`), and no lemma depends on it.
- Names.ArgTypesText: prints the argument types in insertion order. The source prints them in the map's unspecified order, so for two or more arguments the text fixes one order of several.
- ParserNames.ArgTypesText: the same insertion order stands in for the map's order.
- The `Display` impls of both `NamedUnparser` tables (src/analysis/name.rs:143-164, src/parser/named_unparser.rs:90-109) are left out. They only print the tables and are called from commented-out code.
- `SymbolKey`'s `Display` is left out too, for the same reason. So are the `Display` impls of `SemanticSymbol` and `FnSymbolTableWrapper` (src/assembly/x86.rs:34-42, 72-80).
- Integer widths are not modelled. The name-table depth is a `usize` in the newer version and a `u8` in the older one. Temporary counters and string indices are `usize`. All of these are unbounded here, so overflow past 255 nesting levels in the older table is not captured.
- Both `correct_position_rec` (src/parser/ast/position.rs) and `correct_span_rec` (src/parser/ast/span/node.rs) rewrite the tree in place, through `iter_mut` and `&mut self`. Here the correction of each node is a function returning the corrected node. Only the top-level pass over the globals of `correct_span_rec` is a method on a class field (`SpanNode.ProgramNode`). The functions do not capture aliasing between nodes, and the source has none.
- `Span::correct` and `Position::correct` update their fields in place. Here they are methods on values, with their loops proved against `CorrectSpec`.
- The newer `named_unparse` (src/analysis/name.rs:12-30) first corrects the positions of the tree. `NamedNode.NamedUnparseSpec` skips that step, because the rendering never prints a position: for the newer AST this is `SpanNode.ProgramTextKept`.
- `line_bytes` in src/parser/ast/position.rs:58-61 is the same function as in src/parser/ast/span.rs and is modelled once, as `Spans.LineBytes`.
- The `position_ordering` test (src/parser/ast/span.rs:112-174) is not a property of the model. It expects `Greater` for every pair; `Spans.PositionOrderingCases` states what the row-then-column comparison gives for each of its pairs instead.
- The older AST has no `Display` in the sources shown. Everything the older traversals print with `{}` is rendered by the `Debug` functions; `Debug.ExpDebugAgrees` and `Debug.TypeDebugAgrees` show these agree with `Display` on the corresponding newer nodes.
- The older traversal calls `report_named_error` (src/parser/named_unparser/named_node.rs:343, 414), which no file shown defines. It is modelled as `report_error(UndefinedDecl)`.
- `Decl::get_named_string` (src/parser/named_unparser/named_node.rs:55-70) and the free `named_unparse_vec` (lines 28-32) are never called and are left out.
- `named_unparse` in src/parser.rs (lines 51-58) prints its rendering and returns `Ok("")`; the printing is I/O. Its `Node` impls (lines 92-139) are left out: the `FnDecl` impl has no body returning a `String`, so that file does not compile as written. Only the constructor and `add_entry` of that table are modelled.
- The `_id`/`current` path that `named_unparse_helper` builds for field chains is never used by the source; the model does not build it (`NamedNode.LocHelper` states that the result is that of the root lookup).
- `add_class_instance` is called by neither traversal. It is modelled on the tables and no traversal lemma uses it.
- NamedNode.ExpNamed: the contract states what rendering does to the unparser, not the text. The text is stated by the lemmas about its parts: `UnaryNamedShape`, `BinaryNamedShape`, `CallNamedShape`, `IdResolves` for names and `ExpNamedWithoutNames` for name-free expressions.
- NamedNode.UnaryNamed: the contract states only the unparser effect; the `-`/`!` text is stated by `NamedNode.UnaryNamedShape`.
- NamedNode.BinaryNamed: the contract states only the unparser effect; the `lhs op rhs` text is stated by `NamedNode.BinaryNamedShape`.
- NamedNode.CallNamed: the contract states only the unparser effect; the `name(args)` text is stated by `NamedNode.CallNamedShape`.
- NamedNode.LineNamed: the contract states only the unparser effect; the text of each statement kind is stated by `NamedNode.LineNamedShape`.
- ParserNamedNode.ExpNamed: the contract states only the unparser effect; the text is stated by `ParserNamedNode.UnaryNamedShape`, `BinaryNamedShape`, `CallNamedShape`, `IdResolves` and `ExpNamedWithoutNames`.
- ParserNamedNode.UnaryNamed: the contract states only the unparser effect; the `-e`/`!e` text is stated by `ParserNamedNode.UnaryNamedShape`.
- ParserNamedNode.BinaryNamed: the contract states only the unparser effect; the `lhs <op> rhs` text is stated by `ParserNamedNode.BinaryNamedShape`.
- ParserNamedNode.CallNamed: the contract states only the unparser effect; the `name(args)` text is stated by `ParserNamedNode.CallNamedShape`.
- ParserNamedNode.LineNamed: the contract states only the unparser effect; the text of each statement kind is stated by `ParserNamedNode.LineNamedShape`.
- `convert_3ac` in src/assembly/three_ac.rs returns nothing. `ThreeACNode.Convert3AC` returns the filled tables so that their contents can be stated.
- `type_error_check` returns `Ok(())` whatever happens. `TypeNode.TypeErrorCheck` returns `Ok(())` together with the analyzer.
- The per-node `convert_3ac` stubs all return `""`. Only the program-level result, the newline count, is stated (`ThreeACNode.ProgramConvert3ACNewlines`).
- The find_vars of `Loc`, `LocKind` and `Id` do nothing and have no member of their own.
- The emitted x86 is modelled as text only; what it does when run is not modelled. `translate_read`'s swapped format arguments (src/assembly/x86.rs:343) are kept as text.
