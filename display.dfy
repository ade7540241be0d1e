/** `Display` for the newer AST: the source text the pretty-printer writes back. */
module Display {
  import opened Wrappers
  import opened Strings
  import opened AstNew

  /** `fmt_vec`: the rendered items, concatenated. */
  function FmtVec(parts: seq<string>): string {
    Join(parts, "")
  }

  /** `fmt_vec_commas`: the rendered items, separated by a comma and a space. */
  function FmtVecCommas(parts: seq<string>): string {
    Join(parts, ", ")
  }

  predicate EndsWithNewline(s: string) {
    |s| > 0 && s[|s| - 1] == '\n'
  }

  function PrimText(p: PrimType): (r: string)
    ensures r == "" <==> p == OtherPrim
    ensures r == "int" || r == "bool" || r == "void" || r == ""
  {
    match p
    case Int => "int"
    case Bool => "bool"
    case Void => "void"
    case OtherPrim => ""
  }

  function IdText(id: Id): string {
    id.name
  }

  function TypeKindText(k: TypeKind): string {
    match k
    case Prim(x) => PrimText(x)
    case Class(x) => IdText(x)
  }

  function TypeText(t: Type): string {
    if t.perfect then "perfect " + TypeKindText(t.kind) else TypeKindText(t.kind)
  }

  /** A type prints with the `perfect ` prefix exactly when its flag is set, provided the
      class name it may mention has no space in it. */
  lemma TypePerfectPrefix(t: Type)
    requires t.kind.Class? ==> forall i :: 0 <= i < |t.kind.name.name| ==> t.kind.name.name[i] != ' '
    ensures "perfect " <= TypeText(t) <==> t.perfect
  {
    match t.kind
    case Prim(_) =>
    case Class(x) =>
      if |x.name| >= 8 {
        assert x.name[7] != ' ';
        assert x.name[..8] != "perfect ";
      }
  }

  function UnaryOpText(k: UnaryExpKind): string {
    match k
    case Neg => "-"
    case Not => "!"
  }

  function BinaryOpText(k: BinaryExpKind): string {
    match k
    case And => "and"
    case Or => "or"
    case Equals => "=="
    case NotEquals => "!="
    case Greater => ">"
    case Less => "<"
    case GreaterEq => ">="
    case LessEq => "<="
    case Plus => "+"
    case Minus => "-"
    case Times => "*"
    case Divide => "/"
  }

  /** Reads an operator spelling back; the inverse of `BinaryOpText`. */
  function ParseBinaryOp(s: string): Option<BinaryExpKind> {
    if s == "and" then Some(And)
    else if s == "or" then Some(Or)
    else if s == "==" then Some(Equals)
    else if s == "!=" then Some(NotEquals)
    else if s == ">" then Some(Greater)
    else if s == "<" then Some(Less)
    else if s == ">=" then Some(GreaterEq)
    else if s == "<=" then Some(LessEq)
    else if s == "+" then Some(Plus)
    else if s == "-" then Some(Minus)
    else if s == "*" then Some(Times)
    else if s == "/" then Some(Divide)
    else None
  }

  /** Every binary operator has its own spelling, so the printed operator identifies it. */
  lemma BinaryOpRoundTrip(k: BinaryExpKind)
    ensures ParseBinaryOp(BinaryOpText(k)) == Some(k)
  {
  }

  function ExpText(e: Exp): string {
    ExpKindText(e.kind)
  }

  function ExpKindText(k: ExpKind): string {
    match k
    case True => "true"
    case False => "false"
    case Magic => "magic"
    case UnaryExp(u) => UnaryText(u)
    case BinaryExp(b) => BinaryText(b)
    case CallExp(c) => CallText(c)
    case IntLit(n) => IntToString(n)
    case StrLit(s) => s
    case Loc(l) => LocText(l)
  }

  function UnaryText(u: UnaryExp): string {
    UnaryOpText(u.kind) + ExpText(u.exp)
  }

  function BinaryText(b: BinaryExp): string {
    ExpText(b.lhs) + " " + BinaryOpText(b.kind) + " " + ExpText(b.rhs)
  }

  function CallText(c: CallExp): string {
    IdText(c.name) + "(" + FmtVecCommas(ExpTexts(c.args)) + ")"
  }

  function ExpTexts(es: seq<Exp>): (r: seq<string>)
    ensures |r| == |es|
  {
    if es == [] then [] else [ExpText(es[0])] + ExpTexts(es[1..])
  }

  function LocText(l: Loc): string {
    LocKindText(l.kind)
  }

  function LocKindText(k: LocKind): string {
    match k
    case Id(x) => IdText(x)
    case Loc(b, f) => LocText(b) + "--" + IdText(f)
  }

  /** A unary expression prints as its operator character immediately followed by the
      operand. */
  lemma UnaryTextShape(u: UnaryExp)
    ensures |UnaryText(u)| >= 1
    ensures UnaryText(u)[0] == (if u.kind == Neg then '-' else '!')
    ensures UnaryText(u)[1..] == ExpText(u.exp)
  {
  }

  /** A field access ends with `--` and the field name. */
  lemma FieldLocShape(b: Loc, f: Id)
    ensures LocKindText(LocKind.Loc(b, f)) == LocText(b) + "--" + f.name
    ensures "--" + f.name <= LocKindText(LocKind.Loc(b, f))[|LocText(b)|..]
  {
  }

  /** A call prints as its name, then the arguments in parentheses with `, ` between; the
      number of arguments is the number of rendered pieces. */
  lemma CallTextShape(c: CallExp)
    ensures var t := CallText(c);
      c.name.name + "(" <= t && t[|t| - 1] == ')'
      && t[|c.name.name| + 1..|t| - 1] == Join(ExpTexts(c.args), ", ")
      && |ExpTexts(c.args)| == |c.args|
  {
  }

  const ExitSentence: string := "today I don't feel like doing any work"

  function LineKindText(k: LineStmtKind): string {
    match k
    case Assign(d, s) => LocText(d) + " = " + ExpText(s)
    case PostDec(l) => LocText(l) + "--"
    case PostInc(l) => LocText(l) + "++"
    case Give(o) => "give " + ExpText(o)
    case Take(r) => "take " + LocText(r)
    case Return(res) =>
      (match res
       case Some(x) => "return " + ExpText(x)
       case None => "return")
    case Exit => ExitSentence
    case Call(c) => CallText(c)
  }

  function LineText(l: LineStmt): string {
    LineKindText(l.kind)
  }

  function VarDeclText(v: VarDecl): (r: string)
    ensures |r| >= 2 && r[|r| - 2..] == ";\n"
  {
    match v.initVal
    case Some(x) => IdText(v.id) + " : " + TypeText(v.varType) + " = " + ExpText(x) + ";\n"
    case None => IdText(v.id) + " : " + TypeText(v.varType) + ";\n"
  }

  /** Every statement's text is terminated by a newline, so concatenated statements stay on
      separate lines. */
  function StmtText(s: Stmt): (r: string)
    ensures EndsWithNewline(r)
  {
    match s
    case Block(b) => BlockText(b)
    case Line(l) => LineText(l) + ";\n"
    case VarDecl(v) => VarDeclText(v)
  }

  function StmtTexts(ss: seq<Stmt>): (r: seq<string>)
    ensures |r| == |ss|
    ensures forall i :: 0 <= i < |r| ==> EndsWithNewline(r[i])
  {
    if ss == [] then [] else [StmtText(ss[0])] + StmtTexts(ss[1..])
  }

  function BlockText(b: BlockStmt): (r: string)
    ensures EndsWithNewline(r)
  {
    match b
    case While(c, body) => "while (" + ExpText(c) + "){\n" + FmtVec(StmtTexts(body)) + "}\n"
    case If(c, body) => "if (" + ExpText(c) + "){\n" + FmtVec(StmtTexts(body)) + "}\n"
    case IfElse(c, t, f) =>
      "if (" + ExpText(c) + "){\n" + FmtVec(StmtTexts(t)) + "}\nelse{\n" + FmtVec(StmtTexts(f)) + "}\n"
  }

  function FormalText(f: FormalDecl): string {
    match f
    case VarDecl(v) => VarDeclText(v)
    case FormalDecl(id, t) => IdText(id) + " : " + TypeText(t)
  }

  function FormalTexts(fs: seq<FormalDecl>): (r: seq<string>)
    ensures |r| == |fs|
  {
    if fs == [] then [] else [FormalText(fs[0])] + FormalTexts(fs[1..])
  }

  function FnDeclText(f: FnDecl): (r: string)
    ensures EndsWithNewline(r)
  {
    IdText(f.id) + " : (" + FmtVecCommas(FormalTexts(f.args)) + ") " + TypeText(f.ret) + "  {\n"
    + FmtVec(StmtTexts(f.body)) + "}\n"
  }

  function ClassDeclText(c: ClassDecl): (r: string)
    ensures EndsWithNewline(r)
  {
    IdText(c.id) + " : class {\n" + FmtVec(DeclTexts(c.memberF)) + "};\n"
  }

  function DeclText(d: Decl): (r: string)
    ensures EndsWithNewline(r)
  {
    match d
    case VarDecl(v) => VarDeclText(v)
    case ClassDecl(c) => ClassDeclText(c)
    case FnDecl(f) => FnDeclText(f)
  }

  function DeclTexts(ds: seq<Decl>): (r: seq<string>)
    ensures |r| == |ds|
    ensures forall i :: 0 <= i < |r| ==> EndsWithNewline(r[i])
  {
    if ds == [] then [] else [DeclText(ds[0])] + DeclTexts(ds[1..])
  }

  /** `Display for Program`: the declarations, concatenated. */
  function ProgramText(p: Program): string {
    FmtVec(DeclTexts(p.globals))
  }

  /** Concatenating newline-terminated pieces gives a newline-terminated text, or the empty
      text when there are no pieces. */
  lemma {:induction false} FmtVecEndsWithNewline(parts: seq<string>)
    requires forall i :: 0 <= i < |parts| ==> EndsWithNewline(parts[i])
    ensures parts == [] <==> FmtVec(parts) == ""
    ensures parts != [] ==> EndsWithNewline(FmtVec(parts))
  {
    if |parts| > 1 {
      FmtVecEndsWithNewline(parts[1..]);
      assert FmtVec(parts) == parts[0] + FmtVec(parts[1..]);
    }
  }

  /** A rendered program is empty exactly when it has no declarations, and otherwise ends
      with a newline. */
  lemma ProgramTextTerminated(p: Program)
    ensures p.globals == [] <==> ProgramText(p) == ""
    ensures p.globals != [] ==> EndsWithNewline(ProgramText(p))
  {
    FmtVecEndsWithNewline(DeclTexts(p.globals));
  }
}
