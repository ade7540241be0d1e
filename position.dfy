/** Source positions of the older AST (src/parser/ast/position.rs): one record with the
    rows and columns of both ends, the same byte-offset correction as `Span::correct`, and
    its application to every identifier of a program. */
module Positions {
  import opened Wrappers
  import opened Strings
  import opened AstOld
  import Spans
  import Debug

  /** `Position::new`: both ends on row 1, columns taken from the byte offsets. */
  function New(start: nat, end: nat): (r: Position)
    ensures r.startRow == 1 && r.endRow == 1
    ensures r.startCol == start && r.endCol == end
  {
    Position(1, start, 1, end)
  }

  /** `Display for Position`: `[start row, start col]-[end row, end col]`. */
  function PositionText(p: Position): string {
    "[" + NatToString(p.startRow) + ", " + NatToString(p.startCol) + "]-["
    + NatToString(p.endRow) + ", " + NatToString(p.endCol) + "]"
  }

  /** The same range as a span of two (row, column) points. */
  function ToSpan(p: Position): Spans.Span {
    Spans.Span(Spans.Position(p.startRow, p.startCol), Spans.Position(p.endRow, p.endCol))
  }

  function FromSpan(s: Spans.Span): Position {
    Position(s.start.row, s.start.col, s.end.row, s.end.col)
  }

  /** A position prints exactly as the span with the same ends. */
  lemma PositionTextAsSpan(p: Position)
    ensures PositionText(p) == Spans.SpanText(ToSpan(p))
    ensures FromSpan(ToSpan(p)) == p
  {
  }

  /** The result of `Position::correct`: the span correction, applied to the four fields. */
  function CorrectSpec(p: Position, lineBytes: seq<nat>): Position {
    FromSpan(Spans.CorrectSpec(ToSpan(p), lineBytes))
  }

  /** `Position::correct`, with the position passed in and the corrected one returned: the
      columns become 1-based, then every line the end column reaches moves both ends down
      one row, the start only while its column reaches the line too. */
  method Correct(p: Position, lineBytes: seq<nat>) returns (r: Position)
    ensures r == CorrectSpec(p, lineBytes)
  {
    var startRow: nat, startCol: nat, endRow: nat, endCol: nat := p.startRow, p.startCol + 1, p.endRow, p.endCol + 1;
    var i := 0;
    while i < |lineBytes|
      invariant 0 <= i <= |lineBytes|
      invariant Spans.CorrectLoop(Spans.Position(startRow, startCol), Spans.Position(endRow, endCol), lineBytes[i..])
                == Spans.CorrectSpec(ToSpan(p), lineBytes)
    {
      var line := lineBytes[i] + 2;
      assert lineBytes[i..][0] == lineBytes[i] && lineBytes[i..][1..] == lineBytes[i + 1..];
      if startCol >= line {
        startCol := startCol - line;
        startRow := startRow + 1;
      }
      if endCol >= line {
        endCol := endCol - line;
        endRow := endRow + 1;
      } else {
        break;
      }
      i := i + 1;
    }
    r := Position(startRow, startCol, endRow, endCol);
  }

  /** Without line lengths the correction only makes both columns 1-based. */
  lemma CorrectNoLines(p: Position)
    ensures CorrectSpec(p, []) == Position(p.startRow, p.startCol + 1, p.endRow, p.endCol + 1)
  {
  }

  /** Rows never decrease, the end moves down at most once per line, and the end has
      consumed exactly the lines it moved past: its 1-based column plus their bytes (2 more
      per line) is its original offset plus 1. */
  lemma CorrectMovesDown(p: Position, lineBytes: seq<nat>)
    ensures var r := CorrectSpec(p, lineBytes);
      var k := r.endRow - p.endRow;
      p.startRow <= r.startRow && p.endRow <= r.endRow && k <= |lineBytes|
      && p.endCol + 1 == r.endCol + Spans.Consumed(lineBytes, k)
      && (k < |lineBytes| ==> r.endCol < lineBytes[k] + 2)
  {
    Spans.CorrectRows(ToSpan(p), lineBytes);
    Spans.CorrectEnd(ToSpan(p), lineBytes);
  }

  /** `correct_position_rec`, node by node: only identifiers hold positions, and each one
      visited is corrected once. */
  function IdC(id: Id, lb: seq<nat>): (r: Id)
    ensures r.name == id.name && r.position == CorrectSpec(id.position, lb)
  {
    id.(position := CorrectSpec(id.position, lb))
  }

  function LocC(l: Loc, lb: seq<nat>): Loc {
    match l
    case Id(x) => Loc.Id(IdC(x, lb))
    case Loc(b, f) => Loc.Loc(LocC(b, lb), IdC(f, lb))
  }

  /** Literals and the three constants are covered by the wildcard arm and left alone. */
  function ExpC(e: Exp, lb: seq<nat>): Exp {
    match e
    case UnaryExp(u) => Exp.UnaryExp(u.(exp := ExpC(u.exp, lb)))
    case BinaryExp(b) => Exp.BinaryExp(b.(lhs := ExpC(b.lhs, lb), rhs := ExpC(b.rhs, lb)))
    case CallExp(c) => Exp.CallExp(CallC(c, lb))
    case Loc(l) => Exp.Loc(LocC(l, lb))
    case _ => e
  }

  function CallC(c: CallExp, lb: seq<nat>): CallExp {
    CallExp.CallExp(IdC(c.name, lb), ExpsC(c.args, lb))
  }

  function ExpsC(es: seq<Exp>, lb: seq<nat>): (r: seq<Exp>)
    ensures |r| == |es|
  {
    if es == [] then [] else [ExpC(es[0], lb)] + ExpsC(es[1..], lb)
  }

  function LineC(l: LineStmt, lb: seq<nat>): LineStmt {
    match l
    case Assign(d, s) => Assign(LocC(d, lb), ExpC(s, lb))
    case PostDec(x) => PostDec(LocC(x, lb))
    case PostInc(x) => PostInc(LocC(x, lb))
    case Give(o) => Give(ExpC(o, lb))
    case Take(r) => Take(LocC(r, lb))
    case Return(res) => if res.Some? then Return(Some(ExpC(res.value, lb))) else l
    case Exit => Exit
    case Call(c) => Call(CallC(c, lb))
  }

  /** A variable declaration corrects its name only. */
  function VarDeclC(v: VarDecl, lb: seq<nat>): VarDecl {
    v.(id := IdC(v.id, lb))
  }

  function StmtC(s: Stmt, lb: seq<nat>): Stmt {
    match s
    case Block(b) => Stmt.Block(BlockC(b, lb))
    case Line(l) => Stmt.Line(LineC(l, lb))
    case VarDecl(v) => Stmt.VarDecl(VarDeclC(v, lb))
  }

  function StmtsC(ss: seq<Stmt>, lb: seq<nat>): (r: seq<Stmt>)
    ensures |r| == |ss|
  {
    if ss == [] then [] else [StmtC(ss[0], lb)] + StmtsC(ss[1..], lb)
  }

  function BlockC(b: BlockStmt, lb: seq<nat>): BlockStmt {
    match b
    case While(c, body) => While(ExpC(c, lb), StmtsC(body, lb))
    case If(c, body) => If(ExpC(c, lb), StmtsC(body, lb))
    case IfElse(c, t, f) => IfElse(ExpC(c, lb), StmtsC(t, lb), StmtsC(f, lb))
  }

  function FormalC(f: FormalDecl, lb: seq<nat>): FormalDecl {
    match f
    case VarDecl(v) => FormalDecl.VarDecl(VarDeclC(v, lb))
    case FormalDecl(id, t) => FormalDecl.FormalDecl(IdC(id, lb), t)
  }

  function FormalsC(fs: seq<FormalDecl>, lb: seq<nat>): (r: seq<FormalDecl>)
    ensures |r| == |fs|
  {
    if fs == [] then [] else [FormalC(fs[0], lb)] + FormalsC(fs[1..], lb)
  }

  function FnDeclC(f: FnDecl, lb: seq<nat>): FnDecl {
    FnDecl.FnDecl(IdC(f.id, lb), FormalsC(f.args, lb), f.ret, StmtsC(f.body, lb))
  }

  function ClassDeclC(c: ClassDecl, lb: seq<nat>): ClassDecl {
    ClassDecl.ClassDecl(IdC(c.id, lb), DeclsC(c.memberF, lb))
  }

  function DeclC(d: Decl, lb: seq<nat>): Decl {
    match d
    case VarDecl(v) => Decl.VarDecl(VarDeclC(v, lb))
    case ClassDecl(c) => Decl.ClassDecl(ClassDeclC(c, lb))
    case FnDecl(f) => Decl.FnDecl(FnDeclC(f, lb))
  }

  function DeclsC(ds: seq<Decl>, lb: seq<nat>): (r: seq<Decl>)
    ensures |r| == |ds|
  {
    if ds == [] then [] else [DeclC(ds[0], lb)] + DeclsC(ds[1..], lb)
  }

  function ProgramC(p: Program, lb: seq<nat>): Program {
    Program(DeclsC(p.globals, lb))
  }

  /** Literals and constants have no position and are returned unchanged. */
  lemma LiteralsUntouched(e: Exp, lb: seq<nat>)
    requires e.True? || e.False? || e.Magic? || e.IntLit? || e.StrLit?
    ensures ExpC(e, lb) == e
  {
  }

  /** A variable declaration keeps its type and its initialiser as they were, positions
      included; only its own name's position is corrected. */
  lemma VarDeclOnlyName(v: VarDecl, lb: seq<nat>)
    ensures VarDeclC(v, lb).varType == v.varType && VarDeclC(v, lb).initVal == v.initVal
    ensures VarDeclC(v, lb).id.name == v.id.name
    ensures VarDeclC(v, lb).id.position == CorrectSpec(v.id.position, lb)
  {
  }

  /** Correcting positions changes nothing that is printed: only positions change. */
  lemma {:induction false} ExpDebugKept(e: Exp, lb: seq<nat>)
    ensures Debug.ExpDebug(ExpC(e, lb)) == Debug.ExpDebug(e)
    decreases e, 1
  {
    match e
    case UnaryExp(u) =>
      ExpDebugKept(u.exp, lb);
      assert Debug.ExpDebug(ExpC(e, lb)) == Debug.UnaryDebug(u.(exp := ExpC(u.exp, lb)));
    case BinaryExp(b) =>
      ExpDebugKept(b.lhs, lb);
      ExpDebugKept(b.rhs, lb);
      var b' := b.(lhs := ExpC(b.lhs, lb), rhs := ExpC(b.rhs, lb));
      assert Debug.OpKind(b') == Debug.OpKind(b);
      assert Debug.ExpDebug(ExpC(e, lb)) == Debug.BinaryDebug(b');
    case CallExp(c) =>
      ExpsDebugKept(c.args, lb);
      assert Debug.ExpDebug(ExpC(e, lb)) == Debug.CallDebug(CallC(c, lb));
    case Loc(l) => LocDebugKept(l, lb);
    case _ =>
  }

  lemma {:induction false} ExpsDebugKept(es: seq<Exp>, lb: seq<nat>)
    ensures Debug.ExpsDebug(ExpsC(es, lb)) == Debug.ExpsDebug(es)
    decreases es, 0
  {
    if es != [] {
      ExpDebugKept(es[0], lb);
      ExpsDebugKept(es[1..], lb);
    }
  }

  lemma {:induction false} LocDebugKept(l: Loc, lb: seq<nat>)
    ensures Debug.LocDebug(LocC(l, lb)) == Debug.LocDebug(l)
  {
    match l
    case Id(_) =>
    case Loc(b, _) => LocDebugKept(b, lb);
  }

  lemma LineDebugKept(l: LineStmt, lb: seq<nat>)
    ensures Debug.LineDebug(LineC(l, lb)) == Debug.LineDebug(l)
  {
    match l
    case Assign(d, s) => LocDebugKept(d, lb); ExpDebugKept(s, lb);
    case PostDec(x) => LocDebugKept(x, lb);
    case PostInc(x) => LocDebugKept(x, lb);
    case Give(o) => ExpDebugKept(o, lb);
    case Take(r) => LocDebugKept(r, lb);
    case Return(res) => if res.Some? { ExpDebugKept(res.value, lb); }
    case Exit =>
    case Call(c) =>
      ExpsDebugKept(c.args, lb);
      assert Debug.LineDebug(LineC(l, lb)) == Debug.CallDebug(CallC(c, lb));
  }

  lemma VarDeclDebugKept(v: VarDecl, lb: seq<nat>)
    ensures Debug.VarDeclDebug(VarDeclC(v, lb)) == Debug.VarDeclDebug(v)
  {
  }

  lemma {:induction false} StmtDebugKept(s: Stmt, lb: seq<nat>)
    ensures Debug.StmtDebug(StmtC(s, lb)) == Debug.StmtDebug(s)
    decreases s, 1
  {
    match s
    case Block(b) => BlockDebugKept(b, lb);
    case Line(l) => LineDebugKept(l, lb);
    case VarDecl(v) => VarDeclDebugKept(v, lb);
  }

  lemma {:induction false} StmtsDebugKept(ss: seq<Stmt>, lb: seq<nat>)
    ensures Debug.StmtsDebug(StmtsC(ss, lb)) == Debug.StmtsDebug(ss)
    decreases ss, 0
  {
    if ss != [] {
      StmtDebugKept(ss[0], lb);
      StmtsDebugKept(ss[1..], lb);
    }
  }

  lemma {:induction false} BlockDebugKept(b: BlockStmt, lb: seq<nat>)
    ensures Debug.BlockDebug(BlockC(b, lb)) == Debug.BlockDebug(b)
    decreases b, 0
  {
    match b
    case While(c, body) => ExpDebugKept(c, lb); StmtsDebugKept(body, lb);
    case If(c, body) => ExpDebugKept(c, lb); StmtsDebugKept(body, lb);
    case IfElse(c, t, f) => ExpDebugKept(c, lb); StmtsDebugKept(t, lb); StmtsDebugKept(f, lb);
  }

  lemma {:induction false} FormalsDebugKept(fs: seq<FormalDecl>, lb: seq<nat>)
    ensures Debug.FormalsDebug(FormalsC(fs, lb)) == Debug.FormalsDebug(fs)
    decreases |fs|
  {
    if fs != [] {
      FormalsDebugKept(fs[1..], lb);
    }
  }

  lemma {:induction false} DeclDebugKept(d: Decl, lb: seq<nat>)
    ensures Debug.DeclDebug(DeclC(d, lb)) == Debug.DeclDebug(d)
    decreases d, 1
  {
    match d
    case VarDecl(v) =>
    case ClassDecl(c) => DeclsDebugKept(c.memberF, lb);
    case FnDecl(f) => FormalsDebugKept(f.args, lb); StmtsDebugKept(f.body, lb);
  }

  lemma {:induction false} DeclsDebugKept(ds: seq<Decl>, lb: seq<nat>)
    ensures Debug.DeclsDebug(DeclsC(ds, lb)) == Debug.DeclsDebug(ds)
    decreases ds, 0
  {
    if ds != [] {
      DeclDebugKept(ds[0], lb);
      DeclsDebugKept(ds[1..], lb);
    }
  }

  /** After `correct_position_rec` the program prints exactly as before. */
  lemma ProgramDebugKept(p: Program, lb: seq<nat>)
    ensures Debug.ProgramDebug(ProgramC(p, lb)) == Debug.ProgramDebug(p)
  {
    DeclsDebugKept(p.globals, lb);
  }
}
