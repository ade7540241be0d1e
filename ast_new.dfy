/** The newer AST shape: nodes carry a `Span` and wrap their variant in a `kind` field;
    `Type` is a record with a `perfect` flag. Display, span correction, IR symbol
    collection and type-signature registration work on this shape. */
module AstNew {
  import opened Wrappers
  import Spans

  /** The variants Display names, plus one for whatever its wildcard arm covers. */
  datatype PrimType = Int | Bool | Void | OtherPrim

  datatype TypeKind = Prim(prim: PrimType) | Class(name: Id)

  datatype Type = Type(perfect: bool, kind: TypeKind)

  datatype Id = Id(span: Spans.Span, name: string)

  datatype LocKind = Id(id: Id) | Loc(baseClass: Loc, fieldName: Id)

  datatype Loc = Loc(span: Spans.Span, kind: LocKind)

  datatype UnaryExpKind = Neg | Not

  datatype BinaryExpKind =
    And | Or | Equals | NotEquals | Greater | Less | GreaterEq | LessEq | Plus | Minus | Times | Divide

  datatype ExpKind =
    | True
    | False
    | Magic
    | UnaryExp(unary: UnaryExp)
    | BinaryExp(binary: BinaryExp)
    | CallExp(call: CallExp)
    | IntLit(intValue: int)
    | StrLit(strValue: string)
    | Loc(loc: Loc)

  datatype Exp = Exp(span: Spans.Span, kind: ExpKind)

  datatype UnaryExp = UnaryExp(span: Spans.Span, kind: UnaryExpKind, exp: Exp)

  datatype BinaryExp = BinaryExp(span: Spans.Span, kind: BinaryExpKind, lhs: Exp, rhs: Exp)

  datatype CallExp = CallExp(span: Spans.Span, name: Id, args: seq<Exp>)

  datatype LineStmtKind =
    | Assign(dest: Loc, src: Exp)
    | PostDec(loc: Loc)
    | PostInc(loc: Loc)
    | Give(output: Exp)
    | Take(recipient: Loc)
    | Return(result: Option<Exp>)
    | Exit
    | Call(exp: CallExp)

  datatype LineStmt = LineStmt(span: Spans.Span, kind: LineStmtKind)

  datatype VarDecl = VarDecl(id: Id, varType: Type, initVal: Option<Exp>)

  datatype BlockStmt =
    | While(cond: Exp, body: seq<Stmt>)
    | If(cond: Exp, body: seq<Stmt>)
    | IfElse(cond: Exp, trueBranch: seq<Stmt>, falseBranch: seq<Stmt>)

  datatype Stmt = Block(block: BlockStmt) | Line(line: LineStmt) | VarDecl(varDecl: VarDecl)

  datatype FormalDecl = VarDecl(varDecl: VarDecl) | FormalDecl(id: Id, formalType: Type)

  datatype FnDecl = FnDecl(id: Id, args: seq<FormalDecl>, ret: Type, body: seq<Stmt>)

  datatype ClassDecl = ClassDecl(id: Id, memberF: seq<Decl>)

  datatype Decl = VarDecl(varDecl: VarDecl) | ClassDecl(classDecl: ClassDecl) | FnDecl(fnDecl: FnDecl)

  datatype Program = Program(globals: seq<Decl>)
}
