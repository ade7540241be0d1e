/** Source spans of the newer AST: a (row, column) position pair, its ordering, span union,
    and the correction from byte offsets into (row, column) coordinates. */
module Spans {
  import opened Strings

  /** A point in the source. Columns start at byte offsets and are rewritten by `Correct`. */
  datatype Position = Position(row: nat, col: nat)

  datatype Span = Span(start: Position, end: Position)

  datatype Ordering = Less | Equal | Greater

  /** `Span::new`: both ends on row 1, columns taken from the byte offsets. */
  function New(start: nat, end: nat): (r: Span)
    ensures r.start.row == 1 && r.end.row == 1
    ensures r.start.col == start && r.end.col == end
  {
    Span(Position(1, start), Position(1, end))
  }

  function CmpNat(a: nat, b: nat): Ordering {
    if a < b then Less else if a == b then Equal else Greater
  }

  /** `Ord for Position`: rows first, columns break ties. */
  function Cmp(a: Position, b: Position): Ordering {
    if CmpNat(a.row, b.row) == Equal then CmpNat(a.col, b.col) else CmpNat(a.row, b.row)
  }

  /** `PartialEq for Position`. */
  predicate Eq(a: Position, b: Position) {
    a.row == b.row && a.col == b.col
  }

  /** The ordering is lexicographic on (row, col). */
  lemma CmpLexicographic(a: Position, b: Position)
    ensures Cmp(a, b) == Less <==> a.row < b.row || (a.row == b.row && a.col < b.col)
    ensures Cmp(a, b) == Equal <==> Eq(a, b)
    ensures Eq(a, b) <==> a == b
  {
  }

  /** Swapping the operands reverses the ordering. */
  lemma CmpAntisymmetric(a: Position, b: Position)
    ensures Cmp(a, b) == Less <==> Cmp(b, a) == Greater
    ensures Cmp(a, b) == Equal <==> Cmp(b, a) == Equal
  {
  }

  /** The ordering is transitive. */
  lemma CmpTransitive(a: Position, b: Position, c: Position)
    requires Cmp(a, b) != Greater && Cmp(b, c) != Greater
    ensures Cmp(a, c) != Greater
    ensures Cmp(a, b) == Less || Cmp(b, c) == Less ==> Cmp(a, c) == Less
  {
  }

  /** The pairs of the `position_ordering` test under the row-then-column comparison: only
      the first is `Greater`; rows decide the next one, columns the same-row ones, and the
      last pair is `Equal`. */
  lemma PositionOrderingCases()
    ensures Cmp(Position(13, 1), Position(10, 5)) == Greater
    ensures Cmp(Position(5, 15), Position(7, 14)) == Less
    ensures Cmp(Position(10, 9), Position(10, 11)) == Less
    ensures Cmp(Position(5, 1), Position(5, 7)) == Less
    ensures Cmp(Position(1, 2), Position(8, 2)) == Less
    ensures Cmp(Position(15, 7), Position(17, 7)) == Less
    ensures Cmp(Position(14, 1), Position(14, 1)) == Equal
  {
  }

  /** `std::cmp::min`: the first argument unless the second is strictly smaller. */
  function Min(a: Position, b: Position): (r: Position)
    ensures Cmp(r, a) != Greater && Cmp(r, b) != Greater
    ensures r == a || r == b
  {
    if Cmp(a, b) == Greater then b else a
  }

  /** `std::cmp::max`: the second argument unless the first is strictly larger. */
  function Max(a: Position, b: Position): (r: Position)
    ensures Cmp(a, r) != Greater && Cmp(b, r) != Greater
    ensures r == a || r == b
  {
    if Cmp(a, b) == Greater then a else b
  }

  /** `Span + Span`: the earlier start and the later end. */
  function Add(a: Span, b: Span): (r: Span)
    ensures Cmp(r.start, a.start) != Greater && Cmp(r.start, b.start) != Greater
    ensures Cmp(a.end, r.end) != Greater && Cmp(b.end, r.end) != Greater
    ensures (r.start == a.start || r.start == b.start) && (r.end == a.end || r.end == b.end)
  {
    Span(Min(a.start, b.start), Max(a.end, b.end))
  }

  /** Span union does not depend on the order of its operands. */
  lemma AddCommutative(a: Span, b: Span)
    ensures Add(a, b) == Add(b, a)
  {
  }

  /** A span added to itself is itself. */
  lemma AddIdempotent(a: Span)
    ensures Add(a, a) == a
  {
  }

  /** Span union is associative. */
  lemma AddAssociative(a: Span, b: Span, c: Span)
    ensures Add(Add(a, b), c) == Add(a, Add(b, c))
  {
  }

  /** `Display for Position`: `[row, col]`. */
  function PositionText(p: Position): string {
    "[" + NatToString(p.row) + ", " + NatToString(p.col) + "]"
  }

  /** `Display for Span`: `[row, col]-[row, col]`. */
  function SpanText(s: Span): string {
    PositionText(s.start) + "-" + PositionText(s.end)
  }

  /** `line_bytes`: the UTF-8 length of each line of the input, in order. */
  function LineBytes(input: string): (r: seq<nat>)
    ensures |r| == |Lines(input)|
    ensures forall i :: 0 <= i < |r| ==> r[i] == ByteLen(Lines(input)[i])
  {
    seq(|Lines(input)|, i requires 0 <= i < |Lines(input)| => ByteLen(Lines(input)[i]))
  }

  /** What the correction loop computes from the current start and end over the lines not
      yet examined: each line costs its length plus 2 bytes; the start moves down when its
      column reaches that cost, the end likewise, and the loop stops at the first line the
      end does not reach. */
  function CorrectLoop(start: Position, end: Position, lineBytes: seq<nat>): Span
    decreases |lineBytes|
  {
    if lineBytes == [] then Span(start, end)
    else
      var line := lineBytes[0] + 2;
      var start' := if start.col >= line then Position(start.row + 1, start.col - line) else start;
      if end.col >= line then CorrectLoop(start', Position(end.row + 1, end.col - line), lineBytes[1..])
      else Span(start', end)
  }

  /** The result of `Span::correct`: both columns become 1-based, then the loop runs. */
  function CorrectSpec(s: Span, lineBytes: seq<nat>): Span {
    CorrectLoop(Position(s.start.row, s.start.col + 1), Position(s.end.row, s.end.col + 1), lineBytes)
  }

  /** `Span::correct`, with the span passed in and the corrected span returned. */
  method Correct(s: Span, lineBytes: seq<nat>) returns (r: Span)
    ensures r == CorrectSpec(s, lineBytes)
  {
    var start := Position(s.start.row, s.start.col + 1);
    var end := Position(s.end.row, s.end.col + 1);
    var i := 0;
    var stopped := false;
    while i < |lineBytes| && !stopped
      invariant 0 <= i <= |lineBytes|
      invariant !stopped ==> CorrectLoop(start, end, lineBytes[i..]) == CorrectSpec(s, lineBytes)
      invariant stopped ==> Span(start, end) == CorrectSpec(s, lineBytes)
      decreases |lineBytes| - i, !stopped
    {
      var line := lineBytes[i] + 2;
      assert lineBytes[i..][0] == lineBytes[i] && lineBytes[i..][1..] == lineBytes[i + 1..];
      if start.col >= line {
        start := Position(start.row + 1, start.col - line);
      }
      if end.col >= line {
        end := Position(end.row + 1, end.col - line);
        i := i + 1;
      } else {
        stopped := true;
      }
    }
    r := Span(start, end);
  }

  /** Bytes taken by the first k lines, 2 of them per line for the line break. */
  function Consumed(lineBytes: seq<nat>, k: nat): nat
    requires k <= |lineBytes|
  {
    if k == 0 then 0 else lineBytes[0] + 2 + Consumed(lineBytes[1..], k - 1)
  }

  /** Without line lengths the correction only makes the columns 1-based. */
  lemma CorrectNoLines(s: Span)
    ensures CorrectSpec(s, []) == Span(Position(s.start.row, s.start.col + 1), Position(s.end.row, s.end.col + 1))
  {
  }

  /** The loop never moves a position up, moves each down at most once per line, and the
      start never moves down further than the end. */
  lemma {:induction false} CorrectLoopRows(start: Position, end: Position, lineBytes: seq<nat>)
    ensures var r := CorrectLoop(start, end, lineBytes);
      start.row <= r.start.row && end.row <= r.end.row
      && r.end.row - end.row <= |lineBytes|
      && r.start.row - start.row <= r.end.row - end.row + 1
      && (r.start.row - start.row <= r.end.row - end.row || (lineBytes != [] && r.end.row - end.row < |lineBytes|))
    decreases |lineBytes|
  {
    if lineBytes != [] {
      var line := lineBytes[0] + 2;
      var start' := if start.col >= line then Position(start.row + 1, start.col - line) else start;
      if end.col >= line {
        CorrectLoopRows(start', Position(end.row + 1, end.col - line), lineBytes[1..]);
      }
    }
  }

  /** `Span::correct` never decreases a row, and runs at most one step per line. */
  lemma CorrectRows(s: Span, lineBytes: seq<nat>)
    ensures var r := CorrectSpec(s, lineBytes);
      s.start.row <= r.start.row && s.end.row <= r.end.row
      && r.end.row - s.end.row <= |lineBytes|
      && r.start.row - s.start.row <= r.end.row - s.end.row + 1
  {
    CorrectLoopRows(Position(s.start.row, s.start.col + 1), Position(s.end.row, s.end.col + 1), lineBytes);
  }

  lemma {:induction false} CorrectLoopEnd(start: Position, end: Position, lineBytes: seq<nat>)
    ensures var r := CorrectLoop(start, end, lineBytes);
      var k := r.end.row - end.row;
      end.row <= r.end.row && k <= |lineBytes|
      && end.col == r.end.col + Consumed(lineBytes, k)
      && (k < |lineBytes| ==> r.end.col < lineBytes[k] + 2)
    decreases |lineBytes|
  {
    if lineBytes != [] {
      var line := lineBytes[0] + 2;
      var start' := if start.col >= line then Position(start.row + 1, start.col - line) else start;
      if end.col >= line {
        var end' := Position(end.row + 1, end.col - line);
        CorrectLoopEnd(start', end', lineBytes[1..]);
        var r := CorrectLoop(start, end, lineBytes);
        var k := r.end.row - end.row;
        assert r == CorrectLoop(start', end', lineBytes[1..]);
        assert k >= 1;
        assert lineBytes[1..][k - 1..] == lineBytes[k..];
        if k < |lineBytes| {
          assert lineBytes[1..][k - 1] == lineBytes[k];
        }
      }
    }
  }

  /** After `Span::correct` the end has consumed exactly the first k lines, k being the
      number of rows it moved down: its 1-based column plus the bytes of those lines is the
      original offset plus 1, and it did not reach the next line. */
  lemma CorrectEnd(s: Span, lineBytes: seq<nat>)
    ensures var r := CorrectSpec(s, lineBytes);
      var k := r.end.row - s.end.row;
      s.end.row <= r.end.row && k <= |lineBytes|
      && s.end.col + 1 == r.end.col + Consumed(lineBytes, k)
      && (k < |lineBytes| ==> r.end.col < lineBytes[k] + 2)
  {
    CorrectLoopEnd(Position(s.start.row, s.start.col + 1), Position(s.end.row, s.end.col + 1), lineBytes);
  }

  /** The start keeps being checked against every line the end consumes, even after it
      failed one: offset 5 lies on the first line of 10 bytes, yet the start ends on row 2. */
  lemma CorrectStartRetriesLaterLines()
    ensures CorrectSpec(New(5, 20), [10, 2, 200]) == Span(Position(2, 2), Position(3, 5))
  {
  }
}
