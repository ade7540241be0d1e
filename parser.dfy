/** src/parser.rs: the pretty-printer entry point, its own `add_tabs` (every line ended by a
    newline) and the first, overwriting version of the scoped name table. */
module Parser {
  import opened Wrappers
  import opened Strings
  import opened AstNew
  import Display
  import opened Format

  /** The text `add_tabs` in src/parser.rs returns: each re-indented line followed by a
      newline. */
  function AddTabsSpec(input: string): string {
    Terminated(Indent(0, Lines(input)))
  }

  /** `add_tabs` in src/parser.rs. */
  method AddTabs(input: string) returns (output: string)
    ensures output == AddTabsSpec(input)
  {
    output := TerminatedLoop(Lines(input));
  }

  /** The loop of `add_tabs` over the lines of its input. */
  method TerminatedLoop(text: seq<string>) returns (output: string)
    ensures output == Terminated(Indent(0, text))
  {
    output := "";
    var tabs: nat := 0;
    for i := 0 to |text|
      invariant output + Terminated(Indent(tabs, text[i..])) == Terminated(Indent(0, text))
    {
      assert text[i..][1..] == text[i + 1..];
      var line := Trim(text[i]);
      ghost var before := tabs;
      if |line| > 0 && line[0] == '}' {
        if tabs > 0 {
          tabs := tabs - 1;
        }
      }
      assert tabs == TabsBefore(before, line);
      ghost var pad := Repeat(Tab, tabs);
      ghost var indented := pad + line;
      assert indented == IndentedLine(before, line);
      ghost var prev := output;
      output := output + Repeat(Tab, tabs);
      if |line| > 0 && line[|line| - 1] == '{' {
        tabs := tabs + 1;
      }
      assert tabs == TabsAfter(before, line);
      IndentUnfold(before, text[i..]);
      ghost var next := Terminated(Indent(tabs, text[i + 1..]));
      assert Terminated(Indent(before, text[i..])) == indented + "\n" + next;
      output := output + line;
      output := output + "\n";
      ConcatRegroup(prev, pad, line, next);
    }
    assert text[|text|..] == [];
  }

  lemma ConcatRegroup(prev: string, pad: string, line: string, next: string)
    ensures prev + pad + line + "\n" + next == prev + (pad + line + "\n" + next)
  {
  }

  /** `unparse`: the program's `Display` text, re-indented. */
  method Unparse(prog: Program) returns (r: string)
    ensures r == AddTabsSpec(Display.ProgramText(prog))
  {
    r := AddTabs(Display.ProgramText(prog));
  }

  /** `str::lines` on the output gives back exactly the re-indented input lines: one output
      line per input line. */
  lemma AddTabsLines(input: string)
    ensures Lines(AddTabsSpec(input)) == Indent(0, Lines(input))
  {
    var lines := Lines(input);
    LinesHaveNoNewline(input);
    IndentLinesSplittable(lines);
    var ls := Indent(0, lines);
    LinesOfTerminated(ls);
    assert AddTabsSpec(input) == Terminated(ls);
  }

  /** The re-indented lines meet what `LinesOfTerminated` needs. */
  lemma IndentLinesSplittable(lines: seq<string>)
    requires forall k :: 0 <= k < |lines| ==> '\n' !in lines[k]
    ensures forall k :: 0 <= k < |Indent(0, lines)| ==> !Contains(Indent(0, lines)[k], "\n")
    ensures forall k :: 0 <= k < |Indent(0, lines)| ==> (|Indent(0, lines)[k]| > 0 ==> Indent(0, lines)[k][|Indent(0, lines)[k]| - 1] != '\r')
  {
    var ls := Indent(0, lines);
    IndentNoNewline(0, lines);
    forall k | 0 <= k < |ls| ensures !Contains(ls[k], "\n") {
      ContainsChar(ls[k], '\n');
    }
    forall k | 0 <= k < |ls| ensures |ls[k]| > 0 ==> ls[k][|ls[k]| - 1] != '\r' {
      IndentEndsNotCr(0, lines, k);
    }
  }

  /** A re-indented line never ends with a carriage return: either its trimmed text ends
      with a non-whitespace character, or it is indentation only. */
  lemma IndentedLineNotCr(tabs: nat, line: string)
    ensures var l := IndentedLine(tabs, Trim(line)); |l| > 0 ==> l[|l| - 1] != '\r'
  {
    var t := Trim(line);
    var pad := Repeat(Tab, TabsBefore(tabs, t));
    var l := IndentedLine(tabs, t);
    assert l == pad + t;
    if t == [] {
      assert l == pad;
      if |pad| > 0 {
        assert pad[|pad| - 1] in Tab;
      }
    } else {
      assert l[|l| - 1] == t[|t| - 1];
      assert !IsWhitespace(t[|t| - 1]);
    }
  }

  /** No re-indented line ends with a carriage return. */
  lemma IndentEndsNotCr(tabs: nat, lines: seq<string>, k: nat)
    requires k < |lines|
    ensures var l := Indent(tabs, lines)[k]; |l| > 0 ==> l[|l| - 1] != '\r'
  {
    IndentAt(tabs, lines, k);
    IndentedLineNotCr(TabsAt(tabs, lines[..k]), lines[k]);
  }

  /** The symbol kinds this table records. */
  datatype SymbolKind = Variable | Class | Function(args: seq<Type>, ret: Option<Type>)

  /** The name table of src/parser.rs, keyed by (id, depth). */
  class NamedUnparser {
    var scope: nat
    var table: map<(string, nat), SymbolKind>

    /** The table `named_unparse` starts with. */
    constructor ()
      ensures scope == 0 && table == map[]
    {
      scope := 0;
      table := map[];
    }

    /** `add_entry`: inserts at the current depth, replacing any entry already there. */
    method AddEntry(id: string, kind: SymbolKind)
      modifies this
      ensures scope == old(scope)
      ensures table == old(table)[(id, scope) := kind]
    {
      table := table[(id, scope) := kind];
    }
  }

  /** Adding twice under the same name and depth keeps only the second kind, and no other
      entry changes: there is no duplicate check. */
  lemma AddEntryOverwrites(table: map<(string, nat), SymbolKind>, id: string, depth: nat, first: SymbolKind, second: SymbolKind)
    ensures var t := table[(id, depth) := first][(id, depth) := second];
      t[(id, depth)] == second && t.Keys == table.Keys + {(id, depth)}
      && forall k :: k in table && k != (id, depth) ==> t[k] == table[k]
  {
  }
}
