/** The parts of Rust's `str` API the compiler relies on, stated over `string`
    (a sequence of Unicode scalar values). */
module Strings {
  import opened Wrappers

  /** Bytes one character occupies in UTF-8, which is what Rust's `str::len` counts. */
  function Utf8Len(c: char): (n: nat)
    ensures 1 <= n <= 4
    ensures c as int < 0x80 <==> n == 1
  {
    if c as int < 0x80 then 1
    else if c as int < 0x800 then 2
    else if c as int < 0x10000 then 3
    else 4
  }

  /** Rust's `str::len`: the UTF-8 byte length. */
  function ByteLen(s: string): (n: nat)
    ensures |s| <= n <= 4 * |s|
  {
    if s == [] then 0 else Utf8Len(s[0]) + ByteLen(s[1..])
  }

  /** Rust's `char::is_whitespace` (the Unicode White_Space property). */
  predicate IsWhitespace(c: char) {
    var k := c as int;
    (9 <= k <= 13) || k == 32 || k == 0x85 || k == 0xA0 || k == 0x1680
    || (0x2000 <= k <= 0x200A) || k == 0x2028 || k == 0x2029 || k == 0x202F
    || k == 0x205F || k == 0x3000
  }

  /** `str::trim_start`: the longest suffix that does not start with whitespace. */
  function TrimStart(s: string): (r: string)
    ensures |r| <= |s| && r == s[|s| - |r|..]
    ensures r != [] ==> !IsWhitespace(r[0])
    ensures forall i :: 0 <= i < |s| - |r| ==> IsWhitespace(s[i])
  {
    if s != [] && IsWhitespace(s[0]) then TrimStart(s[1..]) else s
  }

  /** `str::trim_end`: the longest prefix that does not end with whitespace. */
  function TrimEnd(s: string): (r: string)
    ensures |r| <= |s| && r == s[..|r|]
    ensures r != [] ==> !IsWhitespace(r[|r| - 1])
    ensures forall i :: |r| <= i < |s| ==> IsWhitespace(s[i])
  {
    if s != [] && IsWhitespace(s[|s| - 1]) then TrimEnd(s[..|s| - 1]) else s
  }

  /** `str::trim`: whitespace removed at both ends. */
  function Trim(s: string): (r: string)
    ensures r != [] ==> !IsWhitespace(r[0]) && !IsWhitespace(r[|r| - 1])
    ensures |r| <= |s|
  {
    TrimEnd(TrimStart(s))
  }

  /** A non-whitespace-bounded string is its own trim. */
  lemma TrimIdempotent(s: string)
    ensures Trim(Trim(s)) == Trim(s)
  {
    var t := Trim(s);
    if t != [] {
      assert TrimStart(t) == t;
      assert TrimEnd(t) == t;
    }
  }

  /** Whitespace added in front of a trimmed string is removed again by `trim_start`. */
  lemma {:induction false} TrimStartOfPadded(pad: string, t: string)
    requires forall i :: 0 <= i < |pad| ==> IsWhitespace(pad[i])
    requires t != [] ==> !IsWhitespace(t[0])
    ensures TrimStart(pad + t) == t
  {
    if pad != [] {
      assert (pad + t)[1..] == pad[1..] + t;
      TrimStartOfPadded(pad[1..], t);
    }
  }

  /** `pat` occurs in `s` starting at index `j`. */
  predicate OccursAt(s: string, pat: string, j: nat) {
    j <= |s| && pat <= s[j..]
  }

  /** The first index where `pat` occurs in `s`, as `str::find` returns it. */
  function Find(s: string, pat: string): (r: Option<nat>)
    ensures r.Some? ==> OccursAt(s, pat, r.value)
    ensures r.Some? ==> forall j :: 0 <= j < r.value ==> !OccursAt(s, pat, j)
    ensures r.None? ==> forall j :: 0 <= j <= |s| ==> !OccursAt(s, pat, j)
    decreases |s|
  {
    if pat <= s then Some(0)
    else if s == [] then None
    else
      assert forall j :: 1 <= j <= |s| ==> (OccursAt(s, pat, j) <==> OccursAt(s[1..], pat, j - 1)) by {
        forall j | 1 <= j <= |s| ensures OccursAt(s, pat, j) <==> OccursAt(s[1..], pat, j - 1) {
          assert s[1..][j - 1..] == s[j..];
        }
      }
      match Find(s[1..], pat)
      case None => None
      case Some(i) => Some(i + 1)
  }

  /** `str::contains`. */
  predicate Contains(s: string, pat: string) {
    Find(s, pat).Some?
  }

  /** `str::starts_with`. */
  predicate StartsWith(s: string, pat: string) {
    pat <= s
  }

  /** `str::ends_with`. */
  predicate EndsWith(s: string, pat: string) {
    |pat| <= |s| && s[|s| - |pat|..] == pat
  }

  /** `str::split` with a non-empty pattern: the pieces between non-overlapping
      occurrences of `sep`, scanned from the left. */
  function Split(s: string, sep: string): (r: seq<string>)
    requires |sep| > 0
    ensures |r| >= 1
    decreases |s|
  {
    match Find(s, sep)
    case None => [s]
    case Some(i) => [s[..i]] + Split(s[i + |sep|..], sep)
  }

  /** `str::split_once` on one character. */
  function SplitOnce(s: string, c: char): (r: Option<(string, string)>)
    ensures r.Some? <==> Contains(s, [c])
    ensures r.Some? ==> s == r.value.0 + [c] + r.value.1 && !Contains(r.value.0, [c])
  {
    match Find(s, [c])
    case None => None
    case Some(i) =>
      assert s == s[..i] + [c] + s[i + 1..];
      assert Find(s[..i], [c]).Some? ==> OccursAt(s, [c], Find(s[..i], [c]).value);
      Some((s[..i], s[i + 1..]))
  }

  /** `[T]::join` for strings: the parts with `sep` between neighbours. */
  function Join(parts: seq<string>, sep: string): (r: string)
  {
    if |parts| == 0 then ""
    else if |parts| == 1 then parts[0]
    else parts[0] + sep + Join(parts[1..], sep)
  }

  /** Joining the pieces of a split gives back the original string. */
  lemma {:induction false} JoinSplit(s: string, sep: string)
    requires |sep| > 0
    ensures Join(Split(s, sep), sep) == s
    decreases |s|
  {
    match Find(s, sep)
    case None =>
    case Some(i) =>
      var rest := s[i + |sep|..];
      assert Split(s, sep) == [s[..i]] + Split(rest, sep);
      JoinCons(s[..i], Split(rest, sep), sep);
      JoinSplit(rest, sep);
      AroundOccurrence(s, sep, i);
  }

  /** A part in front of a non-empty list is joined with one separator. */
  lemma JoinCons(a: string, ps: seq<string>, sep: string)
    requires |ps| >= 1
    ensures Join([a] + ps, sep) == a + sep + Join(ps, sep)
  {
    var parts := [a] + ps;
    assert |parts| >= 2 && parts[0] == a && parts[1..] == ps;
  }

  /** A string is the text before an occurrence, the occurrence, and the text after it. */
  lemma AroundOccurrence(s: string, pat: string, i: nat)
    requires OccursAt(s, pat, i)
    ensures i + |pat| <= |s| && s == s[..i] + pat + s[i + |pat|..]
  {
    assert s[i..][..|pat|] == pat;
    assert s[i..i + |pat|] == pat;
  }

  /** Appending one element, regrouped. */
  lemma SnocRegroup<T>(a: seq<T>, x: T, b: seq<T>)
    ensures (a + [x]) + b == a + ([x] + b)
  {
  }

  /** Text joined around an operator spelled between single spaces splits back at the
      operator. */
  lemma SpacedShape(a: string, o: string, c: string)
    ensures var op := " " + o + " "; var t := a + " " + o + " " + c;
      a + op <= t && t[|a| + |op|..] == c
  {
    var op := " " + o + " ";
    assert a + " " + o + " " + c == (a + op) + c;
  }

  /** Concatenation regrouped. */
  /** A piece placed between two others occurs in the result. */
  lemma ContainsInfix(a: string, x: string, b: string)
    ensures Contains(a + x + b, x)
  {
    assert (a + x + b)[|a|..] == x + b;
    assert OccursAt(a + x + b, x, |a|);
  }

  /** A string ends with whatever was appended last. */
  lemma EndsWithAppended(a: string, b: string)
    ensures EndsWith(a + b, b)
  {
    assert (a + b)[|a|..] == b;
  }

  /** The pieces of a three-part text: the middle one occurs, the last ends it. */
  lemma ThreeParts(a: string, b: string, c: string)
    ensures Contains(a + b + c, b) && EndsWith(a + b + c, c)
  {
    ContainsInfix(a, b, c);
    EndsWithAppended(a + b, c);
  }

  /** The pieces of a four-part text: the two middle ones occur, the last ends it. */
  lemma FourParts(a: string, b: string, c: string, d: string)
    ensures Contains(a + b + c + d, b) && Contains(a + b + c + d, c) && EndsWith(a + b + c + d, d)
  {
    assert a + b + c + d == a + b + (c + d);
    ContainsInfix(a, b, c + d);
    ContainsInfix(a + b, c, d);
    EndsWithAppended(a + b + c, d);
  }

  /** The pieces of a five-part text: the second and third occur, the last ends it. */
  lemma FiveParts(a: string, b: string, c: string, d: string, e: string)
    ensures var t := a + b + c + d + e; Contains(t, b) && Contains(t, c) && EndsWith(t, e)
  {
    assert a + b + c + d + e == a + b + (c + d + e);
    assert a + b + c + d + e == a + b + c + (d + e);
    ContainsInfix(a, b, c + d + e);
    ContainsInfix(a + b, c, d + e);
    EndsWithAppended(a + b + c + d, e);
  }

  lemma AppendRegroup<T>(a: seq<T>, b: seq<T>, c: seq<T>)
    ensures (a + b) + c == a + (b + c)
  {
  }

  /** A joined list ending in one more part. */
  lemma {:induction false} JoinSnoc(parts: seq<string>, last: string, sep: string)
    requires |parts| >= 1
    ensures Join(parts + [last], sep) == Join(parts, sep) + sep + last
  {
    if |parts| == 1 {
      assert parts + [last] == [parts[0], last];
    } else {
      assert (parts + [last])[1..] == parts[1..] + [last];
      JoinSnoc(parts[1..], last, sep);
    }
  }

  /** `String::repeat`. */
  function Repeat(s: string, n: nat): (r: string)
    ensures |r| == n * |s|
    ensures forall i :: 0 <= i < |r| ==> r[i] in s
  {
    if n == 0 then "" else Repeat(s, n - 1) + s
  }

  /** Removes one trailing carriage return. */
  function StripCr(line: string): (r: string)
    ensures r == line || r + "\r" == line
  {
    if |line| > 0 && line[|line| - 1] == '\r' then line[..|line| - 1] else line
  }

  /** `str::lines`: split at each newline, drop a carriage return in front of a newline,
      and produce no final empty line for a trailing newline. */
  function Lines(s: string): (r: seq<string>)
    ensures s == [] <==> r == []
    decreases |s|
  {
    if s == [] then []
    else
      match Find(s, "\n")
      case None => [s]
      case Some(i) => [StripCr(s[..i])] + Lines(s[i + 1..])
  }

  /** What `str::lines` yields for a string built from lines ended by newlines. */
  lemma {:induction false} LinesOfTerminated(ls: seq<string>)
    requires forall k :: 0 <= k < |ls| ==> !Contains(ls[k], "\n")
    requires forall k :: 0 <= k < |ls| ==> (|ls[k]| > 0 ==> ls[k][|ls[k]| - 1] != '\r')
    ensures Lines(Terminated(ls)) == ls
  {
    if ls != [] {
      var s := Terminated(ls);
      assert s == ls[0] + "\n" + Terminated(ls[1..]);
      assert OccursAt(s, "\n", |ls[0]|);
      var f := Find(s, "\n");
      if f.value < |ls[0]| {
        assert s[f.value..f.value + 1] == ls[0][f.value..f.value + 1];
        assert OccursAt(ls[0], "\n", f.value);
        assert false;
      }
      assert s[..|ls[0]|] == ls[0];
      assert s[|ls[0]| + 1..] == Terminated(ls[1..]);
      LinesOfTerminated(ls[1..]);
    }
  }

  /** A one-character pattern occurs exactly when the character does. */
  lemma ContainsChar(s: string, c: char)
    ensures Contains(s, [c]) <==> c in s
  {
    if c in s {
      var j :| 0 <= j < |s| && s[j] == c;
      assert s[j..][..1] == [c];
      assert OccursAt(s, [c], j);
    }
    if Contains(s, [c]) {
      var i := Find(s, [c]).value;
      assert s[i..][0] == c;
    }
  }

  /** No line `str::lines` yields contains a newline. */
  lemma {:induction false} LinesHaveNoNewline(s: string)
    ensures forall k :: 0 <= k < |Lines(s)| ==> '\n' !in Lines(s)[k]
    decreases |s|
  {
    if s != [] {
      match Find(s, "\n")
      case None =>
        ContainsChar(s, '\n');
      case Some(i) =>
        LinesHaveNoNewline(s[i + 1..]);
        forall j | 0 <= j < i ensures s[j] != '\n' {
          assert !OccursAt(s, "\n", j);
          assert s[j..][..1] == [s[j]];
        }
        var first := StripCr(s[..i]);
        assert first == s[..i] || first == s[..i - 1];
        assert '\n' !in first;
        var rest := Lines(s[i + 1..]);
        var ls := Lines(s);
        assert ls == [first] + rest;
        forall k | 0 <= k < |ls| ensures '\n' !in ls[k] {
          if k > 0 {
            assert ls[k] == rest[k - 1];
          }
        }
    }
  }

  /** Trimming keeps a contiguous part of the string, so it introduces no character. */
  lemma TrimChars(s: string, c: char)
    requires c in Trim(s)
    ensures c in s
  {
    var t1 := TrimStart(s);
    var t := TrimEnd(t1);
    var j :| 0 <= j < |t| && t[j] == c;
    assert t1[j] == c;
    assert s[|s| - |t1| + j] == c;
  }

  /** Splitting at a character that no part contains gives the parts back. */
  lemma {:induction false} SplitJoin(parts: seq<string>, c: char)
    requires |parts| >= 1
    requires forall k :: 0 <= k < |parts| ==> c !in parts[k]
    ensures Split(Join(parts, [c]), [c]) == parts
  {
    var s := Join(parts, [c]);
    if |parts| == 1 {
      ContainsChar(parts[0], c);
    } else {
      var p := parts[0];
      var rest := Join(parts[1..], [c]);
      assert s == p + [c] + rest;
      assert s[|p|..][..1] == [c];
      assert OccursAt(s, [c], |p|);
      var i := Find(s, [c]).value;
      forall j | 0 <= j < |p| ensures !OccursAt(s, [c], j) {
        assert s[j] == p[j] && s[j..][0] == s[j];
      }
      assert s[..i] == p;
      assert s[i + 1..] == rest;
      SplitJoin(parts[1..], c);
    }
  }

  /** Each line followed by a newline: what `add_tabs` in src/parser.rs builds. */
  function Terminated(ls: seq<string>): (r: string)
  {
    if ls == [] then "" else ls[0] + "\n" + Terminated(ls[1..])
  }

  /** A decimal digit character. */
  predicate IsDigit(c: char) {
    48 <= c as int <= 57
  }

  function DigitChar(d: nat): (c: char)
    requires d < 10
    ensures IsDigit(c) && (c as int) - 48 == d
  {
    ['0', '1', '2', '3', '4', '5', '6', '7', '8', '9'][d]
  }

  /** Decimal rendering of a natural number, as `format!("{}", n)` prints a usize. */
  function NatToString(n: nat): (r: string)
    ensures |r| >= 1
    ensures forall i :: 0 <= i < |r| ==> IsDigit(r[i])
  {
    if n < 10 then [DigitChar(n)] else NatToString(n / 10) + [DigitChar(n % 10)]
  }

  /** Decimal rendering of an integer with a leading minus for negatives (Rust's `{}`
      and `{:?}` for integer types). */
  function IntToString(i: int): (r: string)
    ensures |r| >= 1
  {
    if i < 0 then "-" + NatToString(-i) else NatToString(i)
  }

  /** The value of a string of decimal digits. */
  function DigitsValue(d: string): nat
    requires forall i :: 0 <= i < |d| ==> IsDigit(d[i])
  {
    if d == [] then 0
    else
      var last := d[|d| - 1];
      assert IsDigit(last);
      10 * DigitsValue(d[..|d| - 1]) + ((last as int) - 48)
  }

  /** A non-empty string of decimal digits read as a natural number. */
  function ParseNat(s: string): (r: Option<nat>)
    ensures r.Some? <==> s != [] && forall i :: 0 <= i < |s| ==> IsDigit(s[i])
  {
    if s != [] && forall i :: 0 <= i < |s| ==> IsDigit(s[i]) then Some(DigitsValue(s)) else None
  }

  /** Reading back a rendered natural number gives the number. */
  lemma {:induction false} ParseNatToString(n: nat)
    ensures ParseNat(NatToString(n)) == Some(n)
  {
    var s := NatToString(n);
    if n >= 10 {
      ParseNatToString(n / 10);
      assert s[..|s| - 1] == NatToString(n / 10);
      assert s[|s| - 1] == DigitChar(n % 10);
    } else {
      assert s[..|s| - 1] == [];
      assert DigitsValue(s) == (s[0] as int) - 48;
    }
  }

  const I32Min: int := -0x8000_0000
  const I32Max: int := 0x7FFF_FFFF

  /** `str::parse::<i32>`: an optional `+` or `-`, then at least one ASCII digit, and a
      value that fits in 32 bits. */
  function ParseI32(s: string): (r: Option<int>)
    ensures r.Some? ==> I32Min <= r.value <= I32Max
    ensures r.Some? ==> s != [] && (IsDigit(s[0]) || s[0] == '+' || s[0] == '-')
  {
    if s == [] then None
    else if (s[0] == '+' || s[0] == '-') && |s| == 1 then None
    else
      var negative := s[0] == '-';
      var digits := if s[0] == '-' || s[0] == '+' then s[1..] else s;
      match ParseNat(digits)
      case None => None
      case Some(v) =>
        var x: int := if negative then -(v as int) else v;
        if I32Min <= x <= I32Max then Some(x) else None
  }

  /** A minus sign in front of the digits of an in-range magnitude reads as its negation. */
  lemma ParseI32Negative(d: string, v: nat)
    requires ParseNat(d) == Some(v) && v <= -I32Min
    ensures ParseI32("-" + d) == Some(-(v as int))
  {
    var s := "-" + d;
    assert s[0] == '-' && |s| >= 2;
    assert s[1..] == d;
  }

  /** Unsigned digits of an in-range value read as that value. */
  lemma ParseI32Digits(d: string, v: nat)
    requires ParseNat(d) == Some(v) && v <= I32Max
    ensures ParseI32(d) == Some(v)
  {
    assert IsDigit(d[0]);
  }

  /** Every 32-bit integer survives a render-and-parse round trip. */
  lemma ParseI32IntToString(x: int)
    requires I32Min <= x <= I32Max
    ensures ParseI32(IntToString(x)) == Some(x)
  {
    if x < 0 {
      ParseNatToString(-x);
      ParseI32Negative(NatToString(-x), -x);
    } else {
      ParseNatToString(x);
      ParseI32Digits(NatToString(x), x);
    }
  }
}
