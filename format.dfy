/** Brace-driven re-indentation of rendered source (`add_tabs` in src/format.rs): each line
    is trimmed and prefixed with four spaces per open brace. */
module Format {
  import opened Strings

  const Tab: string := "    "

  /** The depth a line is printed at: one less when it starts with `}` and the depth is
      positive. */
  function TabsBefore(tabs: nat, line: string): (r: nat)
    ensures r == tabs || (tabs > 0 && r == tabs - 1)
    ensures r < tabs <==> |line| > 0 && line[0] == '}' && tabs > 0
  {
    if |line| > 0 && line[0] == '}' && tabs > 0 then tabs - 1 else tabs
  }

  /** The depth after a line: one more than it was printed at when it ends with `{`. */
  function TabsAfter(tabs: nat, line: string): (r: nat)
    ensures r == TabsBefore(tabs, line) || r == TabsBefore(tabs, line) + 1
    ensures r > TabsBefore(tabs, line) <==> |line| > 0 && line[|line| - 1] == '{'
  {
    var b := TabsBefore(tabs, line);
    if |line| > 0 && line[|line| - 1] == '{' then b + 1 else b
  }

  /** A trimmed line printed at its depth. */
  function IndentedLine(tabs: nat, line: string): string {
    Repeat(Tab, TabsBefore(tabs, line)) + line
  }

  /** The depth after the given lines, starting from `tabs`. */
  function TabsAt(tabs: nat, lines: seq<string>): nat
    decreases |lines|
  {
    if lines == [] then tabs else TabsAt(TabsAfter(tabs, Trim(lines[0])), lines[1..])
  }

  /** The re-indented lines, one per input line. */
  function Indent(tabs: nat, lines: seq<string>): (r: seq<string>)
    ensures |r| == |lines|
    decreases |lines|
  {
    if lines == [] then []
    else
      var t := Trim(lines[0]);
      [IndentedLine(tabs, t)] + Indent(TabsAfter(tabs, t), lines[1..])
  }

  /** The text `add_tabs` in src/format.rs returns: the re-indented lines joined with
      newlines. */
  function AddTabsSpec(input: string): string {
    Join(Indent(0, Lines(input)), "\n")
  }

  lemma IndentUnfold(tabs: nat, lines: seq<string>)
    requires lines != []
    ensures Indent(tabs, lines) == [IndentedLine(tabs, Trim(lines[0]))] + Indent(TabsAfter(tabs, Trim(lines[0])), lines[1..])
  {
  }

  /** `add_tabs` in src/format.rs. */
  method AddTabs(input: string) returns (r: string)
    ensures r == AddTabsSpec(input)
  {
    var output := IndentLoop(Lines(input));
    r := Join(output, "\n");
  }

  /** The loop of `add_tabs` over the lines of its input. */
  method IndentLoop(text: seq<string>) returns (output: seq<string>)
    ensures output == Indent(0, text)
  {
    output := [];
    var tabs: nat := 0;
    for i := 0 to |text|
      invariant output + Indent(tabs, text[i..]) == Indent(0, text)
    {
      assert text[i..][1..] == text[i + 1..];
      var line := Trim(text[i]);
      ghost var before := tabs;
      if |line| > 0 && line[0] == '}' {
        if tabs > 0 {
          tabs := tabs - 1;
        }
      }
      assert tabs == TabsBefore(before, line);
      var indented := Repeat(Tab, tabs) + line;
      assert indented == IndentedLine(before, line);
      if |line| > 0 && line[|line| - 1] == '{' {
        tabs := tabs + 1;
      }
      assert tabs == TabsAfter(before, line);
      IndentUnfold(before, text[i..]);
      ghost var next := Indent(tabs, text[i + 1..]);
      assert Indent(before, text[i..]) == [indented] + next;
      assert (output + [indented]) + next == output + ([indented] + next);
      output := output + [indented];
    }
    assert text[|text|..] == [];
  }

  /** The i-th output line is the i-th input line, trimmed, at the depth the lines before
      it leave. */
  lemma {:induction false} IndentAt(tabs: nat, lines: seq<string>, i: nat)
    requires i < |lines|
    ensures Indent(tabs, lines)[i] == IndentedLine(TabsAt(tabs, lines[..i]), Trim(lines[i]))
    decreases i
  {
    if i == 0 {
      IndentUnfold(tabs, lines);
      assert lines[..0] == [];
    } else {
      var next := TabsAfter(tabs, Trim(lines[0]));
      IndentShift(tabs, lines, i);
      TabsAtShift(tabs, lines, i);
      IndentAt(next, lines[1..], i - 1);
      assert lines[1..][i - 1] == lines[i];
    }
  }

  /** Output line i is line i - 1 of the output for the lines after the first. */
  lemma IndentShift(tabs: nat, lines: seq<string>, i: nat)
    requires 0 < i < |lines|
    ensures Indent(tabs, lines)[i] == Indent(TabsAfter(tabs, Trim(lines[0])), lines[1..])[i - 1]
  {
    IndentUnfold(tabs, lines);
  }

  /** The depth before line i, counted from the second line on. */
  lemma TabsAtShift(tabs: nat, lines: seq<string>, i: nat)
    requires 0 < i <= |lines|
    ensures TabsAt(tabs, lines[..i]) == TabsAt(TabsAfter(tabs, Trim(lines[0])), lines[1..][..i - 1])
  {
    var pre := lines[..i];
    assert pre != [] && pre[0] == lines[0] && pre[1..] == lines[1..][..i - 1];
  }

  /** Removing the leading whitespace of an output line gives the trimmed input line. */
  lemma IndentedLineStrips(tabs: nat, line: string)
    ensures TrimStart(IndentedLine(tabs, Trim(line))) == Trim(line)
  {
    var pad := Repeat(Tab, TabsBefore(tabs, Trim(line)));
    assert forall i :: 0 <= i < |pad| ==> IsWhitespace(pad[i]) by {
      forall i | 0 <= i < |pad| ensures IsWhitespace(pad[i]) {
        assert pad[i] in Tab;
      }
    }
    TrimStartOfPadded(pad, Trim(line));
  }

  /** A line that closes and reopens a brace (`} else {`) prints one level shallower and
      leaves the depth as it was. */
  lemma CloseAndOpen(tabs: nat, line: string)
    requires tabs > 0 && |line| > 0 && line[0] == '}' && line[|line| - 1] == '{'
    ensures TabsBefore(tabs, line) == tabs - 1 && TabsAfter(tabs, line) == tabs
  {
  }

  /** An output line contains no newline. */
  lemma IndentedLineNoNewline(tabs: nat, line: string)
    requires '\n' !in line
    ensures '\n' !in IndentedLine(tabs, Trim(line))
  {
    var t := Trim(line);
    var pad := Repeat(Tab, TabsBefore(tabs, t));
    if '\n' in t {
      TrimChars(line, '\n');
    }
    assert '\n' !in pad by {
      forall i | 0 <= i < |pad| ensures pad[i] != '\n' {
        assert pad[i] in Tab;
      }
    }
    var s := IndentedLine(tabs, t);
    forall i | 0 <= i < |s| ensures s[i] != '\n' {
      if i < |pad| {
        assert s[i] == pad[i];
      } else {
        assert s[i] == t[i - |pad|];
      }
    }
  }

  lemma {:induction false} IndentNoNewline(tabs: nat, lines: seq<string>)
    requires forall k :: 0 <= k < |lines| ==> '\n' !in lines[k]
    ensures forall k :: 0 <= k < |lines| ==> '\n' !in Indent(tabs, lines)[k]
    decreases |lines|
  {
    if lines != [] {
      var t := Trim(lines[0]);
      IndentedLineNoNewline(tabs, lines[0]);
      IndentNoNewline(TabsAfter(tabs, t), lines[1..]);
    }
  }

  /** The output has exactly as many newline-separated lines as the input has lines, and
      they are the re-indented input lines. */
  lemma AddTabsLines(input: string)
    requires input != []
    ensures Split(AddTabsSpec(input), "\n") == Indent(0, Lines(input))
    ensures |Split(AddTabsSpec(input), "\n")| == |Lines(input)|
  {
    LinesHaveNoNewline(input);
    IndentNoNewline(0, Lines(input));
    SplitJoin(Indent(0, Lines(input)), '\n');
  }
}
