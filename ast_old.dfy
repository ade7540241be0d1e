/** The older AST shape: plain enums, and an `Id` that carries a four-field source
    position. The `Debug` printer, the position correction and the older named unparser
    work on this shape. */
module AstOld {
  import opened Wrappers

  /** A source range: rows and columns of its start and end. */
  datatype Position = Position(startRow: nat, startCol: nat, endRow: nat, endCol: nat)

  datatype Id = Id(name: string, position: Position)

  datatype PrimType = Int | Bool | Void

  datatype Type = Prim(prim: PrimType) | PerfectPrim(prim: PrimType) | Class(id: Id) | PerfectClass(id: Id)

  /** A location: a plain name, or a field of another location (`MemberFieldExp` in the
      `Debug` printer). */
  datatype Loc = Id(id: Id) | Loc(baseClass: Loc, fieldName: Id)

  datatype UnaryExp = Neg(exp: Exp) | Not(exp: Exp)

  /** The twelve binary variants, each with a left and a right operand. */
  datatype BinaryExp =
    | And(lhs: Exp, rhs: Exp)
    | Or(lhs: Exp, rhs: Exp)
    | Equals(lhs: Exp, rhs: Exp)
    | NotEquals(lhs: Exp, rhs: Exp)
    | Greater(lhs: Exp, rhs: Exp)
    | Less(lhs: Exp, rhs: Exp)
    | GreaterEq(lhs: Exp, rhs: Exp)
    | LessEq(lhs: Exp, rhs: Exp)
    | Plus(lhs: Exp, rhs: Exp)
    | Minus(lhs: Exp, rhs: Exp)
    | Times(lhs: Exp, rhs: Exp)
    | Divide(lhs: Exp, rhs: Exp)

  datatype CallExp = CallExp(name: Id, args: seq<Exp>)

  datatype Exp =
    | True
    | False
    | Magic
    | UnaryExp(unary: UnaryExp)
    | BinaryExp(binary: BinaryExp)
    | CallExp(call: CallExp)
    | IntLit(intValue: int)
    | StrLit(strValue: string)
    | Loc(loc: Loc)

  datatype LineStmt =
    | Assign(dest: Loc, src: Exp)
    | PostDec(loc: Loc)
    | PostInc(loc: Loc)
    | Give(output: Exp)
    | Take(recipient: Loc)
    | Return(result: Option<Exp>)
    | Exit
    | Call(exp: CallExp)

  datatype VarDecl = VarDecl(id: Id, varType: Type, initVal: Option<Exp>)

  datatype BlockStmt =
    | While(cond: Exp, body: seq<Stmt>)
    | If(cond: Exp, body: seq<Stmt>)
    | IfElse(cond: Exp, trueBranch: seq<Stmt>, falseBranch: seq<Stmt>)

  datatype Stmt = Block(block: BlockStmt) | Line(line: LineStmt) | VarDecl(varDecl: VarDecl)

  datatype FormalDecl = VarDecl(varDecl: VarDecl) | FormalDecl(id: Id, formalType: Type)

  datatype FnDecl = FnDecl(id: Id, args: seq<FormalDecl>, ret: Type, body: seq<Stmt>)

  datatype ClassDecl = ClassDecl(id: Id, memberF: seq<Decl>)

  datatype Decl = VarDecl(varDecl: VarDecl) | ClassDecl(classDecl: ClassDecl) | FnDecl(fnDecl: FnDecl)

  datatype Program = Program(globals: seq<Decl>)
}
