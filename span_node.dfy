/** `SpanNode::correct_span_rec` (src/parser/ast/span/node.rs): every span of the newer AST
    corrected from byte offsets to (row, column), node by node. */
module SpanNode {
  import opened Wrappers
  import opened AstNew
  import Spans
  import Display

  function IdS(id: Id, lb: seq<nat>): (r: Id)
    ensures r.name == id.name && r.span == Spans.CorrectSpec(id.span, lb)
  {
    id.(span := Spans.CorrectSpec(id.span, lb))
  }

  /** A location corrects its own span, then the identifiers and locations inside it. */
  function LocS(l: Loc, lb: seq<nat>): (r: Loc)
    ensures r.span == Spans.CorrectSpec(l.span, lb)
    ensures r.kind.Id? <==> l.kind.Id?
  {
    Loc.Loc(Spans.CorrectSpec(l.span, lb), LocKindS(l.kind, lb))
  }

  function LocKindS(k: LocKind, lb: seq<nat>): (r: LocKind)
    ensures r.Id? <==> k.Id?
  {
    match k
    case Id(x) => LocKind.Id(IdS(x, lb))
    case Loc(b, f) => LocKind.Loc(LocS(b, lb), IdS(f, lb))
  }

  /** An expression corrects its own span once, then its kind. */
  function ExpS(e: Exp, lb: seq<nat>): (r: Exp)
    ensures r.span == Spans.CorrectSpec(e.span, lb)
  {
    Exp.Exp(Spans.CorrectSpec(e.span, lb), ExpKindS(e.kind, lb))
  }

  /** The constants and literals fall into the wildcard arm and are not visited. */
  function ExpKindS(k: ExpKind, lb: seq<nat>): ExpKind {
    match k
    case UnaryExp(u) => ExpKind.UnaryExp(UnaryS(u, lb))
    case BinaryExp(b) => ExpKind.BinaryExp(BinaryS(b, lb))
    case CallExp(c) => ExpKind.CallExp(CallS(c, lb))
    case Loc(l) => ExpKind.Loc(LocS(l, lb))
    case _ => k
  }

  function UnaryS(u: UnaryExp, lb: seq<nat>): (r: UnaryExp)
    ensures r.span == Spans.CorrectSpec(u.span, lb) && r.kind == u.kind
  {
    UnaryExp.UnaryExp(Spans.CorrectSpec(u.span, lb), u.kind, ExpS(u.exp, lb))
  }

  function BinaryS(b: BinaryExp, lb: seq<nat>): (r: BinaryExp)
    ensures r.span == Spans.CorrectSpec(b.span, lb) && r.kind == b.kind
  {
    BinaryExp.BinaryExp(Spans.CorrectSpec(b.span, lb), b.kind, ExpS(b.lhs, lb), ExpS(b.rhs, lb))
  }

  function CallS(c: CallExp, lb: seq<nat>): (r: CallExp)
    ensures r.span == Spans.CorrectSpec(c.span, lb) && |r.args| == |c.args|
  {
    CallExp.CallExp(Spans.CorrectSpec(c.span, lb), IdS(c.name, lb), ExpsS(c.args, lb))
  }

  function ExpsS(es: seq<Exp>, lb: seq<nat>): (r: seq<Exp>)
    ensures |r| == |es|
    ensures forall i :: 0 <= i < |es| ==> r[i] == ExpS(es[i], lb)
  {
    if es == [] then [] else [ExpS(es[0], lb)] + ExpsS(es[1..], lb)
  }

  function LineS(l: LineStmt, lb: seq<nat>): (r: LineStmt)
    ensures r.span == Spans.CorrectSpec(l.span, lb)
  {
    LineStmt.LineStmt(Spans.CorrectSpec(l.span, lb), LineKindS(l.kind, lb))
  }

  function LineKindS(k: LineStmtKind, lb: seq<nat>): LineStmtKind {
    match k
    case Assign(d, s) => Assign(LocS(d, lb), ExpS(s, lb))
    case PostDec(x) => PostDec(LocS(x, lb))
    case PostInc(x) => PostInc(LocS(x, lb))
    case Give(o) => Give(ExpS(o, lb))
    case Take(r) => Take(LocS(r, lb))
    case Return(res) => if res.Some? then Return(Some(ExpS(res.value, lb))) else k
    case Exit => Exit
    case Call(c) => Call(CallS(c, lb))
  }

  /** A variable declaration corrects its name and its initialiser, and not its type. */
  function VarDeclS(v: VarDecl, lb: seq<nat>): (r: VarDecl)
    ensures r.id == IdS(v.id, lb) && r.varType == v.varType
    ensures r.initVal.Some? <==> v.initVal.Some?
    ensures v.initVal.Some? ==> r.initVal.value == ExpS(v.initVal.value, lb)
  {
    VarDecl.VarDecl(IdS(v.id, lb), v.varType, if v.initVal.Some? then Some(ExpS(v.initVal.value, lb)) else None)
  }

  function StmtS(s: Stmt, lb: seq<nat>): Stmt {
    match s
    case Block(b) => Stmt.Block(BlockS(b, lb))
    case Line(l) => Stmt.Line(LineS(l, lb))
    case VarDecl(v) => Stmt.VarDecl(VarDeclS(v, lb))
  }

  function StmtsS(ss: seq<Stmt>, lb: seq<nat>): (r: seq<Stmt>)
    ensures |r| == |ss|
    ensures forall i :: 0 <= i < |ss| ==> r[i] == StmtS(ss[i], lb)
  {
    if ss == [] then [] else [StmtS(ss[0], lb)] + StmtsS(ss[1..], lb)
  }

  function BlockS(b: BlockStmt, lb: seq<nat>): BlockStmt {
    match b
    case While(c, body) => While(ExpS(c, lb), StmtsS(body, lb))
    case If(c, body) => If(ExpS(c, lb), StmtsS(body, lb))
    case IfElse(c, t, f) => IfElse(ExpS(c, lb), StmtsS(t, lb), StmtsS(f, lb))
  }

  function FormalS(f: FormalDecl, lb: seq<nat>): FormalDecl {
    match f
    case VarDecl(v) => FormalDecl.VarDecl(VarDeclS(v, lb))
    case FormalDecl(id, t) => FormalDecl.FormalDecl(IdS(id, lb), t)
  }

  function FormalsS(fs: seq<FormalDecl>, lb: seq<nat>): (r: seq<FormalDecl>)
    ensures |r| == |fs|
    ensures forall i :: 0 <= i < |fs| ==> r[i] == FormalS(fs[i], lb)
  {
    if fs == [] then [] else [FormalS(fs[0], lb)] + FormalsS(fs[1..], lb)
  }

  /** A function corrects its name, then its formals, then its body; the return type keeps
      its spans. */
  function FnDeclS(f: FnDecl, lb: seq<nat>): (r: FnDecl)
    ensures r.id == IdS(f.id, lb) && r.ret == f.ret
    ensures |r.args| == |f.args| && |r.body| == |f.body|
  {
    FnDecl.FnDecl(IdS(f.id, lb), FormalsS(f.args, lb), f.ret, StmtsS(f.body, lb))
  }

  function ClassDeclS(c: ClassDecl, lb: seq<nat>): (r: ClassDecl)
    ensures r.id == IdS(c.id, lb) && |r.memberF| == |c.memberF|
  {
    ClassDecl.ClassDecl(IdS(c.id, lb), DeclsS(c.memberF, lb))
  }

  function DeclS(d: Decl, lb: seq<nat>): Decl {
    match d
    case VarDecl(v) => Decl.VarDecl(VarDeclS(v, lb))
    case ClassDecl(c) => Decl.ClassDecl(ClassDeclS(c, lb))
    case FnDecl(f) => Decl.FnDecl(FnDeclS(f, lb))
  }

  function DeclsS(ds: seq<Decl>, lb: seq<nat>): (r: seq<Decl>)
    ensures |r| == |ds|
    ensures forall i :: 0 <= i < |ds| ==> r[i] == DeclS(ds[i], lb)
  {
    if ds == [] then [] else [DeclS(ds[0], lb)] + DeclsS(ds[1..], lb)
  }

  function ProgramS(p: Program, lb: seq<nat>): (r: Program)
    ensures |r.globals| == |p.globals|
  {
    Program.Program(DeclsS(p.globals, lb))
  }

  /** The constant and literal kinds come back unchanged. */
  lemma LiteralKindsUntouched(k: ExpKind, lb: seq<nat>)
    requires k.True? || k.False? || k.Magic? || k.IntLit? || k.StrLit?
    ensures ExpKindS(k, lb) == k
  {
  }

  /** Correcting spans changes nothing that `Display` prints. */
  lemma {:induction false} ExpTextKept(e: Exp, lb: seq<nat>)
    ensures Display.ExpText(ExpS(e, lb)) == Display.ExpText(e)
    decreases e, 1
  {
    match e.kind
    case UnaryExp(u) =>
      ExpTextKept(u.exp, lb);
      assert Display.ExpText(ExpS(e, lb)) == Display.UnaryText(UnaryS(u, lb));
      assert Display.UnaryText(UnaryS(u, lb)) == Display.UnaryOpText(u.kind) + Display.ExpText(ExpS(u.exp, lb));
      assert Display.ExpText(e) == Display.UnaryText(u);
    case BinaryExp(b) =>
      ExpTextKept(b.lhs, lb);
      ExpTextKept(b.rhs, lb);
      assert Display.ExpText(ExpS(e, lb)) == Display.BinaryText(BinaryS(b, lb));
      assert Display.ExpText(e) == Display.BinaryText(b);
    case CallExp(c) =>
      ExpTextsKept(c.args, lb);
      assert Display.ExpText(ExpS(e, lb)) == Display.CallText(CallS(c, lb));
      assert Display.ExpText(e) == Display.CallText(c);
    case Loc(l) =>
      LocTextKept(l, lb);
      assert Display.ExpText(ExpS(e, lb)) == Display.LocText(LocS(l, lb));
      assert Display.ExpText(e) == Display.LocText(l);
    case _ =>
  }

  lemma {:induction false} ExpTextsKept(es: seq<Exp>, lb: seq<nat>)
    ensures Display.ExpTexts(ExpsS(es, lb)) == Display.ExpTexts(es)
    decreases es, 0
  {
    if es != [] {
      ExpTextKept(es[0], lb);
      ExpTextsKept(es[1..], lb);
    }
  }

  lemma {:induction false} LocTextKept(l: Loc, lb: seq<nat>)
    ensures Display.LocText(LocS(l, lb)) == Display.LocText(l)
  {
    match l.kind
    case Id(_) =>
    case Loc(b, _) =>
      LocTextKept(b, lb);
  }

  lemma LineTextKept(l: LineStmt, lb: seq<nat>)
    ensures Display.LineText(LineS(l, lb)) == Display.LineText(l)
  {
    match l.kind
    case Assign(d, s) => LocTextKept(d, lb); ExpTextKept(s, lb);
    case PostDec(x) => LocTextKept(x, lb);
    case PostInc(x) => LocTextKept(x, lb);
    case Give(o) => ExpTextKept(o, lb);
    case Take(r) => LocTextKept(r, lb);
    case Return(res) => if res.Some? { ExpTextKept(res.value, lb); }
    case Exit =>
    case Call(c) =>
      ExpTextsKept(c.args, lb);
      assert Display.LineText(LineS(l, lb)) == Display.CallText(CallS(c, lb));
  }

  lemma VarDeclTextKept(v: VarDecl, lb: seq<nat>)
    ensures Display.VarDeclText(VarDeclS(v, lb)) == Display.VarDeclText(v)
  {
    if v.initVal.Some? {
      ExpTextKept(v.initVal.value, lb);
    }
  }

  lemma {:induction false} StmtTextKept(s: Stmt, lb: seq<nat>)
    ensures Display.StmtText(StmtS(s, lb)) == Display.StmtText(s)
    decreases s, 1
  {
    match s
    case Block(b) => BlockTextKept(b, lb);
    case Line(l) => LineTextKept(l, lb);
    case VarDecl(v) => VarDeclTextKept(v, lb);
  }

  lemma {:induction false} StmtTextsKept(ss: seq<Stmt>, lb: seq<nat>)
    ensures Display.StmtTexts(StmtsS(ss, lb)) == Display.StmtTexts(ss)
    decreases ss, 0
  {
    if ss != [] {
      StmtTextKept(ss[0], lb);
      StmtTextsKept(ss[1..], lb);
    }
  }

  lemma {:induction false} BlockTextKept(b: BlockStmt, lb: seq<nat>)
    ensures Display.BlockText(BlockS(b, lb)) == Display.BlockText(b)
    decreases b, 0
  {
    match b
    case While(c, body) => ExpTextKept(c, lb); StmtTextsKept(body, lb);
    case If(c, body) => ExpTextKept(c, lb); StmtTextsKept(body, lb);
    case IfElse(c, t, f) => ExpTextKept(c, lb); StmtTextsKept(t, lb); StmtTextsKept(f, lb);
  }

  lemma {:induction false} FormalTextsKept(fs: seq<FormalDecl>, lb: seq<nat>)
    ensures Display.FormalTexts(FormalsS(fs, lb)) == Display.FormalTexts(fs)
    decreases |fs|
  {
    if fs != [] {
      if fs[0].VarDecl? {
        VarDeclTextKept(fs[0].varDecl, lb);
      }
      FormalTextsKept(fs[1..], lb);
    }
  }

  lemma {:induction false} DeclTextKept(d: Decl, lb: seq<nat>)
    ensures Display.DeclText(DeclS(d, lb)) == Display.DeclText(d)
    decreases d, 1
  {
    match d
    case VarDecl(v) => VarDeclTextKept(v, lb);
    case ClassDecl(c) => DeclTextsKept(c.memberF, lb);
    case FnDecl(f) => FormalTextsKept(f.args, lb); StmtTextsKept(f.body, lb);
  }

  lemma {:induction false} DeclTextsKept(ds: seq<Decl>, lb: seq<nat>)
    ensures Display.DeclTexts(DeclsS(ds, lb)) == Display.DeclTexts(ds)
    decreases ds, 0
  {
    if ds != [] {
      DeclTextKept(ds[0], lb);
      DeclTextsKept(ds[1..], lb);
    }
  }

  /** After `correct_span_rec` the program prints exactly as before: only spans change. */
  lemma ProgramTextKept(p: Program, lb: seq<nat>)
    ensures Display.ProgramText(ProgramS(p, lb)) == Display.ProgramText(p)
  {
    DeclTextsKept(p.globals, lb);
  }

  /** The program node whose global declarations `correct_span_rec` rewrites in place, one
      declaration after another. */
  class ProgramNode {
    var globals: seq<Decl>

    constructor(p: Program)
      ensures globals == p.globals
    {
      globals := p.globals;
    }

    /** Every global declaration is corrected once and stays at its index. */
    method CorrectSpanRec(lb: seq<nat>)
      modifies this
      ensures globals == DeclsS(old(globals), lb)
      ensures Display.ProgramText(Program.Program(globals)) == Display.ProgramText(Program.Program(old(globals)))
    {
      ghost var orig := globals;
      var i := 0;
      while i < |globals|
        invariant 0 <= i <= |globals| == |orig|
        invariant forall j :: 0 <= j < i ==> globals[j] == DeclS(orig[j], lb)
        invariant forall j :: i <= j < |globals| ==> globals[j] == orig[j]
      {
        globals := globals[i := DeclS(globals[i], lb)];
        i := i + 1;
      }
      assert globals == DeclsS(orig, lb);
      ProgramTextKept(Program.Program(orig), lb);
    }
  }
}
