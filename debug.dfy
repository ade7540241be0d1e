/** `Debug` for the older AST (src/parser/ast/format.rs): the source text written back from
    the plain-enum shape. */
module Debug {
  import opened Wrappers
  import opened Strings
  import opened AstOld
  import AstNew
  import Spans
  import Display

  function PrimDebug(p: PrimType): string {
    match p
    case Int => "int"
    case Bool => "bool"
    case Void => "void"
  }

  /** An identifier prints as its name; its position is not printed. */
  function IdDebug(id: Id): string {
    id.name
  }

  function TypeDebug(t: Type): string {
    match t
    case Prim(x) => PrimDebug(x)
    case PerfectPrim(x) => "perfect " + PrimDebug(x)
    case Class(x) => IdDebug(x)
    case PerfectClass(x) => "perfect " + IdDebug(x)
  }

  /** The `perfect ` prefix appears exactly on the two perfect variants, provided a class
      name has no space in it. */
  lemma TypePerfectPrefix(t: Type)
    requires (t.Class? || t.PerfectClass?) ==> forall i :: 0 <= i < |t.id.name| ==> t.id.name[i] != ' '
    ensures "perfect " <= TypeDebug(t) <==> t.PerfectPrim? || t.PerfectClass?
  {
    if t.Class? && |t.id.name| >= 8 {
      assert t.id.name[7] != ' ';
      assert t.id.name[..8] != "perfect ";
    }
  }

  /** The operator of a binary variant, as the newer AST names it. */
  function OpKind(b: BinaryExp): AstNew.BinaryExpKind {
    match b
    case And(_, _) => AstNew.And
    case Or(_, _) => AstNew.Or
    case Equals(_, _) => AstNew.Equals
    case NotEquals(_, _) => AstNew.NotEquals
    case Greater(_, _) => AstNew.Greater
    case Less(_, _) => AstNew.Less
    case GreaterEq(_, _) => AstNew.GreaterEq
    case LessEq(_, _) => AstNew.LessEq
    case Plus(_, _) => AstNew.Plus
    case Minus(_, _) => AstNew.Minus
    case Times(_, _) => AstNew.Times
    case Divide(_, _) => AstNew.Divide
  }

  function ExpDebug(e: Exp): string {
    match e
    case True => "true"
    case False => "false"
    case Magic => "magic"
    case UnaryExp(u) => UnaryDebug(u)
    case BinaryExp(b) => BinaryDebug(b)
    case CallExp(c) => CallDebug(c)
    case IntLit(n) => IntToString(n)
    case StrLit(s) => s
    case Loc(l) => LocDebug(l)
  }

  function UnaryDebug(u: UnaryExp): string {
    match u
    case Neg(x) => "-" + ExpDebug(x)
    case Not(x) => "!" + ExpDebug(x)
  }

  /** `lhs op rhs`, with the same operator spellings as `Display`. */
  function BinaryDebug(b: BinaryExp): string {
    ExpDebug(b.lhs) + " " + Display.BinaryOpText(OpKind(b)) + " " + ExpDebug(b.rhs)
  }

  function CallDebug(c: CallExp): string {
    IdDebug(c.name) + "(" + Display.FmtVecCommas(ExpsDebug(c.args)) + ")"
  }

  function ExpsDebug(es: seq<Exp>): (r: seq<string>)
    ensures |r| == |es|
  {
    if es == [] then [] else [ExpDebug(es[0])] + ExpsDebug(es[1..])
  }

  function LocDebug(l: Loc): string {
    match l
    case Id(x) => IdDebug(x)
    case Loc(b, f) => LocDebug(b) + "--" + IdDebug(f)
  }

  /** A string literal is written as it is, without the quotes `Debug` would add; an
      integer literal is written in decimal and reads back as the same 32-bit value. */
  lemma LiteralsDebug(s: string, n: int)
    requires Strings.I32Min <= n <= Strings.I32Max
    ensures ExpDebug(StrLit(s)) == s
    ensures ParseI32(ExpDebug(IntLit(n))) == Some(n)
  {
    ParseI32IntToString(n);
  }

  /** A member field prints as its base, `--`, and the field name, so a chain of k fields
      is the root name followed by k `--`-separated names. */
  lemma MemberFieldDebug(b: Loc, f: Id)
    ensures LocDebug(Loc.Loc(b, f)) == LocDebug(b) + "--" + f.name
    ensures LocDebug(b) <= LocDebug(Loc.Loc(b, f))
    ensures LocDebug(Loc.Loc(b, f))[|LocDebug(b)|..] == "--" + f.name
  {
  }

  function LineDebug(l: LineStmt): string {
    match l
    case Assign(d, s) => LocDebug(d) + " = " + ExpDebug(s)
    case PostDec(x) => LocDebug(x) + "--"
    case PostInc(x) => LocDebug(x) + "++"
    case Give(o) => "give " + ExpDebug(o)
    case Take(r) => "take " + LocDebug(r)
    case Return(res) =>
      (match res
       case Some(x) => "return " + ExpDebug(x)
       case None => "return")
    case Exit => Display.ExitSentence
    case Call(c) => CallDebug(c)
  }

  function VarDeclDebug(v: VarDecl): (r: string)
    ensures |r| >= 2 && r[|r| - 2..] == ";\n"
  {
    match v.initVal
    case Some(x) => IdDebug(v.id) + " : " + TypeDebug(v.varType) + " = " + ExpDebug(x) + ";\n"
    case None => IdDebug(v.id) + " : " + TypeDebug(v.varType) + ";\n"
  }

  function StmtDebug(s: Stmt): (r: string)
    ensures Display.EndsWithNewline(r)
  {
    match s
    case Block(b) => BlockDebug(b)
    case Line(l) => LineDebug(l) + ";\n"
    case VarDecl(v) => VarDeclDebug(v)
  }

  function StmtsDebug(ss: seq<Stmt>): (r: seq<string>)
    ensures |r| == |ss|
    ensures forall i :: 0 <= i < |r| ==> Display.EndsWithNewline(r[i])
  {
    if ss == [] then [] else [StmtDebug(ss[0])] + StmtsDebug(ss[1..])
  }

  function BlockDebug(b: BlockStmt): (r: string)
    ensures Display.EndsWithNewline(r)
  {
    match b
    case While(c, body) => "while (" + ExpDebug(c) + ") {\n" + Display.FmtVec(StmtsDebug(body)) + "}\n"
    case If(c, body) => "if (" + ExpDebug(c) + ") {\n" + Display.FmtVec(StmtsDebug(body)) + "}\n"
    case IfElse(c, t, f) =>
      "if (" + ExpDebug(c) + ") {\n" + Display.FmtVec(StmtsDebug(t)) + "}\nelse {\n" + Display.FmtVec(StmtsDebug(f)) + "}\n"
  }

  /** An if-else prints as the `if` with its true branch, followed by an `else` block on a
      line of its own. */
  lemma IfElseDebug(c: Exp, t: seq<Stmt>, f: seq<Stmt>)
    ensures BlockDebug(IfElse(c, t, f)) == BlockDebug(If(c, t)) + "else {\n" + Display.FmtVec(StmtsDebug(f)) + "}\n"
  {
  }

  function FormalDebug(f: FormalDecl): string {
    match f
    case VarDecl(v) => VarDeclDebug(v)
    case FormalDecl(id, t) => IdDebug(id) + " : " + TypeDebug(t)
  }

  function FormalsDebug(fs: seq<FormalDecl>): (r: seq<string>)
    ensures |r| == |fs|
  {
    if fs == [] then [] else [FormalDebug(fs[0])] + FormalsDebug(fs[1..])
  }

  function FnDeclDebug(f: FnDecl): (r: string)
    ensures Display.EndsWithNewline(r)
  {
    IdDebug(f.id) + " : (" + Display.FmtVecCommas(FormalsDebug(f.args)) + ") " + TypeDebug(f.ret) + " {\n"
    + Display.FmtVec(StmtsDebug(f.body)) + "}\n"
  }

  /** A function prints its header on the first line, ending with ` {`, and its body
      statements after it, each on lines of their own, closed by a `}` line. */
  lemma FnDeclDebugShape(f: FnDecl)
    ensures var header := f.id.name + " : (" + Join(FormalsDebug(f.args), ", ") + ") " + TypeDebug(f.ret) + " {\n";
      header <= FnDeclDebug(f)
      && FnDeclDebug(f)[|header|..] == Join(StmtsDebug(f.body), "") + "}\n"
      && (f.body == [] <==> FnDeclDebug(f)[|header|..] == "}\n")
  {
    Display.FmtVecEndsWithNewline(StmtsDebug(f.body));
  }

  function ClassDeclDebug(c: ClassDecl): (r: string)
    ensures Display.EndsWithNewline(r)
  {
    IdDebug(c.id) + " : class {\n" + Display.FmtVec(DeclsDebug(c.memberF)) + "};\n"
  }

  function DeclDebug(d: Decl): (r: string)
    ensures Display.EndsWithNewline(r)
  {
    match d
    case VarDecl(v) => VarDeclDebug(v)
    case ClassDecl(c) => ClassDeclDebug(c)
    case FnDecl(f) => FnDeclDebug(f)
  }

  function DeclsDebug(ds: seq<Decl>): (r: seq<string>)
    ensures |r| == |ds|
    ensures forall i :: 0 <= i < |r| ==> Display.EndsWithNewline(r[i])
  {
    if ds == [] then [] else [DeclDebug(ds[0])] + DeclsDebug(ds[1..])
  }

  /** `Debug for Program`: the declarations, concatenated. */
  function ProgramDebug(p: Program): string {
    Display.FmtVec(DeclsDebug(p.globals))
  }

  /** The span every converted node gets; neither printer shows it. */
  const NoSpan: Spans.Span := Spans.Span(Spans.Position(0, 0), Spans.Position(0, 0))

  /** The same expressions and types in the newer AST shape. */
  function NewId(id: Id): AstNew.Id {
    AstNew.Id.Id(NoSpan, id.name)
  }

  function NewPrim(p: PrimType): AstNew.PrimType {
    match p
    case Int => AstNew.Int
    case Bool => AstNew.Bool
    case Void => AstNew.Void
  }

  function NewType(t: Type): AstNew.Type {
    match t
    case Prim(x) => AstNew.Type(false, AstNew.Prim(NewPrim(x)))
    case PerfectPrim(x) => AstNew.Type(true, AstNew.Prim(NewPrim(x)))
    case Class(x) => AstNew.Type(false, AstNew.Class(NewId(x)))
    case PerfectClass(x) => AstNew.Type(true, AstNew.Class(NewId(x)))
  }

  function NewExp(e: Exp): AstNew.Exp {
    match e
    case True => AstNew.Exp(NoSpan, AstNew.ExpKind.True)
    case False => AstNew.Exp(NoSpan, AstNew.ExpKind.False)
    case Magic => AstNew.Exp(NoSpan, AstNew.ExpKind.Magic)
    case UnaryExp(u) =>
      AstNew.Exp(NoSpan, AstNew.ExpKind.UnaryExp(AstNew.UnaryExp.UnaryExp(NoSpan, if u.Neg? then AstNew.Neg else AstNew.Not, NewExp(u.exp))))
    case BinaryExp(b) =>
      AstNew.Exp(NoSpan, AstNew.ExpKind.BinaryExp(AstNew.BinaryExp.BinaryExp(NoSpan, OpKind(b), NewExp(b.lhs), NewExp(b.rhs))))
    case CallExp(c) => AstNew.Exp(NoSpan, AstNew.ExpKind.CallExp(NewCall(c)))
    case IntLit(n) => AstNew.Exp(NoSpan, AstNew.ExpKind.IntLit(n))
    case StrLit(s) => AstNew.Exp(NoSpan, AstNew.ExpKind.StrLit(s))
    case Loc(l) => AstNew.Exp(NoSpan, AstNew.ExpKind.Loc(NewLoc(l)))
  }

  function NewCall(c: CallExp): AstNew.CallExp {
    AstNew.CallExp.CallExp(NoSpan, NewId(c.name), NewExps(c.args))
  }

  function NewExps(es: seq<Exp>): (r: seq<AstNew.Exp>)
    ensures |r| == |es|
  {
    if es == [] then [] else [NewExp(es[0])] + NewExps(es[1..])
  }

  function NewLoc(l: Loc): AstNew.Loc {
    match l
    case Id(x) => AstNew.Loc.Loc(NoSpan, AstNew.LocKind.Id(NewId(x)))
    case Loc(b, f) => AstNew.Loc.Loc(NoSpan, AstNew.LocKind.Loc(NewLoc(b), NewId(f)))
  }

  /** The two printers agree on types: the perfect variants are the perfect flag. */
  lemma TypeDebugAgrees(t: Type)
    ensures TypeDebug(t) == Display.TypeText(NewType(t))
  {
  }

  /** The two printers agree on every expression: format.rs and display.rs write the same
      text for the same expression tree. */
  lemma {:induction false} ExpDebugAgrees(e: Exp)
    ensures ExpDebug(e) == Display.ExpText(NewExp(e))
    decreases e, 1
  {
    match e
    case UnaryExp(u) =>
      ExpDebugAgrees(u.exp);
      var k := if u.Neg? then AstNew.Neg else AstNew.Not;
      var nu := AstNew.UnaryExp.UnaryExp(NoSpan, k, NewExp(u.exp));
      assert NewExp(e) == AstNew.Exp(NoSpan, AstNew.ExpKind.UnaryExp(nu));
      assert Display.ExpText(NewExp(e)) == Display.UnaryText(nu);
      assert UnaryDebug(u) == Display.UnaryOpText(k) + ExpDebug(u.exp);
    case BinaryExp(b) =>
      ExpDebugAgrees(b.lhs);
      ExpDebugAgrees(b.rhs);
      var nb := AstNew.BinaryExp.BinaryExp(NoSpan, OpKind(b), NewExp(b.lhs), NewExp(b.rhs));
      assert Display.ExpText(NewExp(e)) == Display.BinaryText(nb);
    case CallExp(c) =>
      ExpsDebugAgrees(c.args);
      assert Display.ExpText(NewExp(e)) == Display.CallText(NewCall(c));
    case Loc(l) => LocDebugAgrees(l);
    case _ =>
  }

  lemma {:induction false} ExpsDebugAgrees(es: seq<Exp>)
    ensures ExpsDebug(es) == Display.ExpTexts(NewExps(es))
    decreases es, 0
  {
    if es != [] {
      ExpDebugAgrees(es[0]);
      ExpsDebugAgrees(es[1..]);
    }
  }

  lemma {:induction false} LocDebugAgrees(l: Loc)
    ensures LocDebug(l) == Display.LocText(NewLoc(l))
  {
    match l
    case Id(_) =>
    case Loc(b, _) => LocDebugAgrees(b);
  }
}
