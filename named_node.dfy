/** The newer name-annotating unparser (src/analysis/name/named_node.rs): every node is
    rendered to text while the `NamedUnparser` is updated, names resolved to
    `name{kind}`. Each `*Named` function gives the text and the unparser afterwards; the
    `Unparse*` methods do the same walk on a `NamedUnparser` object. */
module NamedNode {
  import opened Wrappers
  import opened Strings
  import opened AstNew
  import opened Names
  import Display
  import Format

  /** A rendered node and the unparser state after it. */
  datatype Named = Named(text: string, st: NameState)

  /** Rendered nodes of a list, in order, and the unparser state after the last one. */
  datatype NamedSeq = NamedSeq(texts: seq<string>, st: NameState)

  // ---------------------------------------------------------------- what a walk may change

  predicate OnlyUndefined(errs: seq<NameError>) {
    forall i :: 0 <= i < |errs| ==> errs[i] == UndefinedDecl
  }

  /** The flag is set exactly when something was reported, reports are only appended. */
  predicate Reports(st: NameState, r: NameState) {
    st.errors <= r.errors && r.error == (st.error || |r.errors| > |st.errors|)
  }

  /** Rendering an expression or a line only looks names up: the table, the classes and the
      depth stay, and the only new diagnostics are UndefinedDecl. */
  predicate ExprStep(st: NameState, r: NameState) {
    r.scope == st.scope && r.table == st.table && r.classes == st.classes
    && Reports(st, r) && OnlyUndefined(r.errors[|st.errors|..])
  }

  /** The entries at depths below `d` are the same in both tables. */
  ghost predicate SameBelow(t1: map<SymbolKey, SymbolKind>, t2: map<SymbolKey, SymbolKind>, d: nat) {
    forall k: SymbolKey :: k.scope < d ==> (k in t1 <==> k in t2) && (k in t1 ==> t1[k] == t2[k])
  }

  /** Rendering a statement keeps the depth and the classes, and leaves the entries of the
      enclosing depths alone. */
  ghost predicate StmtStep(st: NameState, r: NameState) {
    r.scope == st.scope && r.classes == st.classes && SameBelow(st.table, r.table, st.scope) && Reports(st, r)
  }

  lemma ReportsTrans(a: NameState, b: NameState, c: NameState)
    requires Reports(a, b) && Reports(b, c)
    ensures Reports(a, c)
  {
  }

  lemma ExprStepTrans(a: NameState, b: NameState, c: NameState)
    requires ExprStep(a, b) && ExprStep(b, c)
    ensures ExprStep(a, c)
  {
    assert c.errors[|a.errors|..] == b.errors[|a.errors|..] + c.errors[|b.errors|..];
  }

  lemma SameBelowTrans(t1: map<SymbolKey, SymbolKind>, t2: map<SymbolKey, SymbolKind>, t3: map<SymbolKey, SymbolKind>, d1: nat, d2: nat)
    requires SameBelow(t1, t2, d1) && SameBelow(t2, t3, d2) && d1 <= d2
    ensures SameBelow(t1, t3, d1)
  {
  }

  lemma StmtStepTrans(a: NameState, b: NameState, c: NameState)
    requires StmtStep(a, b) && StmtStep(b, c)
    ensures StmtStep(a, c)
  {
    SameBelowTrans(a.table, b.table, c.table, a.scope, b.scope);
  }

  lemma AddEntryStep(st: NameState, id: string, kind: SymbolKind)
    ensures StmtStep(st, AddEntrySpec(st, id, kind))
  {
  }

  /** `remove_scope(scope)` followed by `scope -= 1`, the way every scope is closed. */
  function CloseScope(st: NameState): (r: NameState)
    requires st.scope > 0
    ensures r.scope == st.scope - 1 && r.classes == st.classes && r.error == st.error && r.errors == st.errors
    ensures forall k :: k in r.table <==> k in st.table && k.scope != st.scope
    ensures forall k :: k in r.table ==> r.table[k] == st.table[k]
  {
    var s := RemoveScopeSpec(st, st.scope);
    s.(scope := s.scope - 1)
  }

  // ---------------------------------------------------------------- names

  /** `Id::named_unparse`: `name{kind}` when `find_entry` succeeds, and the empty text
      (with UndefinedDecl reported) when it fails. */
  function IdNamed(st: NameState, id: Id): (r: Named)
    ensures ExprStep(st, r.st)
    ensures r.text == "" <==> |r.st.errors| > |st.errors|
  {
    var f := FindEntrySpec(st, id.name);
    match f.kind
    case Some(k) => Named(Display.IdText(id) + "{" + SymbolKindText(k) + "}", f.st)
    case None =>
      assert f.st.errors[|st.errors|..] == [UndefinedDecl];
      Named("", f.st)
  }

  /** An identifier renders non-empty exactly when its name is declared below the current
      depth, and then as the innermost declaration's kind. */
  lemma IdResolves(st: NameState, id: Id)
    ensures IdNamed(st, id).text != "" <==> exists d :: 0 <= d < st.scope && SymbolKey(id.name, d) in st.table
    ensures forall d :: 0 <= d < st.scope && SymbolKey(id.name, d) in st.table && (forall e :: d < e < st.scope ==> SymbolKey(id.name, e) !in st.table) ==>
              IdNamed(st, id).text == id.name + "{" + SymbolKindText(st.table[SymbolKey(id.name, d)]) + "}"
  {
    FindEntryInnermost(st, id.name);
  }

  /** The identifier a location starts from. */
  function RootId(l: Loc): Id {
    match l.kind
    case Id(x) => x
    case Loc(b, _) => RootId(b)
  }

  /** `get_id_named_string`: the lookup of a plain name, or of the field name of a field
      access. */
  function GetIdNamedString(st: NameState, name: LocKind): (r: Named)
    ensures ExprStep(st, r.st)
    ensures r.text == "" <==> |r.st.errors| > |st.errors|
  {
    var x := match name case Id(x) => x case Loc(_, f) => f;
    IdNamed(st, x)
  }

  /** `named_unparse_helper`: a field access with a plain base renders only the lookup of
      the base, a longer chain recurses on its base, and the accumulated `current` path is
      never used; so every location renders as the lookup of its root identifier. */
  function LocHelper(st: NameState, l: Loc, current: string): (r: Named)
    ensures r == IdNamed(st, RootId(l))
  {
    match l.kind
    case Id(_) => GetIdNamedString(st, l.kind)
    case Loc(b, f) =>
      match b.kind
      case Id(_) => GetIdNamedString(st, b.kind)
      case Loc(_, _) =>
        LocHelper(st, b, if current == "" then Display.IdText(f) else Display.IdText(f) + "--" + current)
  }

  function LocNamed(st: NameState, l: Loc): (r: Named)
    ensures ExprStep(st, r.st)
  {
    LocHelper(st, l, "")
  }

  // ---------------------------------------------------------------- expressions

  function ExpNamed(st: NameState, e: Exp): (r: Named)
    ensures ExprStep(st, r.st)
    decreases e
  {
    match e.kind
    case True => Named("true", st)
    case False => Named("false", st)
    case Magic => Named("magic", st)
    case UnaryExp(u) => UnaryNamed(st, u)
    case BinaryExp(b) => BinaryNamed(st, b)
    case CallExp(c) => CallNamed(st, c)
    case IntLit(n) => Named(IntToString(n), st)
    case StrLit(s) => Named(s, st)
    case Loc(l) => LocNamed(st, l)
  }

  function UnaryNamed(st: NameState, u: UnaryExp): (r: Named)
    ensures ExprStep(st, r.st)
    decreases u
  {
    var x := ExpNamed(st, u.exp);
    Named(Display.UnaryOpText(u.kind) + x.text, x.st)
  }

  function BinaryNamed(st: NameState, b: BinaryExp): (r: Named)
    ensures ExprStep(st, r.st)
    decreases b
  {
    var l := ExpNamed(st, b.lhs);
    var r := ExpNamed(l.st, b.rhs);
    ExprStepTrans(st, l.st, r.st);
    Named(l.text + " " + Display.BinaryOpText(b.kind) + " " + r.text, r.st)
  }

  function CallNamed(st: NameState, c: CallExp): (r: Named)
    ensures ExprStep(st, r.st)
    decreases c
  {
    var n := IdNamed(st, c.name);
    var a := ExpsNamed(n.st, c.args);
    ExprStepTrans(st, n.st, a.st);
    Named(n.text + "(" + Join(a.texts, ", ") + ")", a.st)
  }

  function ExpsNamed(st: NameState, es: seq<Exp>): (r: NamedSeq)
    ensures |r.texts| == |es| && ExprStep(st, r.st)
    decreases es
  {
    if es == [] then NamedSeq([], st)
    else
      var x := ExpNamed(st, es[0]);
      var rest := ExpsNamed(x.st, es[1..]);
      ExprStepTrans(st, x.st, rest.st);
      NamedSeq([x.text] + rest.texts, rest.st)
  }

  /** No name is looked up inside: no location and no call. */
  predicate NoNames(e: Exp)
    decreases e
  {
    match e.kind
    case UnaryExp(u) => NoNames(u.exp)
    case BinaryExp(b) => NoNames(b.lhs) && NoNames(b.rhs)
    case CallExp(_) => false
    case Loc(_) => false
    case _ => true
  }

  /** Without names, the named rendering is the plain `Display` text and nothing is
      reported. */
  lemma {:induction false} ExpNamedWithoutNames(st: NameState, e: Exp)
    requires NoNames(e)
    ensures ExpNamed(st, e) == Named(Display.ExpText(e), st)
    decreases e
  {
    match e.kind
    case UnaryExp(u) =>
      ExpNamedWithoutNames(st, u.exp);
      assert Display.ExpText(e) == Display.UnaryText(u);
      assert ExpNamed(st, e) == UnaryNamed(st, u);
    case BinaryExp(b) =>
      ExpNamedWithoutNames(st, b.lhs);
      ExpNamedWithoutNames(st, b.rhs);
      assert Display.ExpText(e) == Display.BinaryText(b);
      assert ExpNamed(st, e) == BinaryNamed(st, b);
    case _ =>
  }

  /** A unary expression renders as its sign immediately followed by the operand's
      rendering, and leaves the unparser as the operand leaves it. */
  lemma UnaryNamedShape(st: NameState, u: UnaryExp)
    ensures var x := ExpNamed(st, u.exp); var r := UnaryNamed(st, u);
      |r.text| == |x.text| + 1 && r.text[0] == (if u.kind == Neg then '-' else '!') &&
      r.text[1..] == x.text && r.st == x.st
  {
  }

  /** A binary expression renders as the left operand, the operator between single spaces,
      then the right operand, which is rendered after the left one. */
  lemma BinaryNamedShape(st: NameState, b: BinaryExp)
    ensures var l := ExpNamed(st, b.lhs); var x := ExpNamed(l.st, b.rhs); var r := BinaryNamed(st, b);
      var op := " " + Display.BinaryOpText(b.kind) + " ";
      l.text + op <= r.text && r.text[|l.text| + |op|..] == x.text && r.st == x.st
  {
    var l := ExpNamed(st, b.lhs);
    var x := ExpNamed(l.st, b.rhs);
    assert BinaryNamed(st, b).text == l.text + " " + Display.BinaryOpText(b.kind) + " " + x.text;
    SpacedShape(l.text, Display.BinaryOpText(b.kind), x.text);
  }

  /** A call renders as its name's lookup, then the arguments' renderings joined by `, ` in
      parentheses; the arguments are rendered after the name, in order. */
  lemma CallNamedShape(st: NameState, c: CallExp)
    ensures var n := IdNamed(st, c.name); var a := ExpsNamed(n.st, c.args); var r := CallNamed(st, c);
      n.text + "(" <= r.text && r.text[|r.text| - 1] == ')' &&
      r.text[|n.text| + 1..|r.text| - 1] == Join(a.texts, ", ") && |a.texts| == |c.args| && r.st == a.st
  {
  }

  // ---------------------------------------------------------------- statements

  function LineNamed(st: NameState, l: LineStmt): (r: Named)
    ensures ExprStep(st, r.st)
  {
    match l.kind
    case Assign(d, s) =>
      var x := LocNamed(st, d);
      var y := ExpNamed(x.st, s);
      ExprStepTrans(st, x.st, y.st);
      Named(x.text + " = " + y.text, y.st)
    case PostDec(x) => var n := LocNamed(st, x); Named(n.text + "--", n.st)
    case PostInc(x) => var n := LocNamed(st, x); Named(n.text + "++", n.st)
    case Give(o) => var n := ExpNamed(st, o); Named("give " + n.text, n.st)
    case Take(x) => var n := LocNamed(st, x); Named("take " + n.text, n.st)
    case Return(res) =>
      if res.Some? then var n := ExpNamed(st, res.value); Named("return " + n.text, n.st)
      else Named("return", st)
    case Exit => Named(Display.ExitSentence, st)
    case Call(c) => CallNamed(st, c)
  }

  /** Each line statement renders around its parts' renderings: `lhs = rhs`, `x--`, `x++`,
      `give e`, `take x`, `return e` or `return`, the exit sentence, or the call itself. */
  lemma LineNamedShape(st: NameState, l: LineStmt)
    ensures var t := LineNamed(st, l).text; var k := l.kind;
      (k.Assign? ==>
         LocNamed(st, k.dest).text + " = " <= t &&
         t[|LocNamed(st, k.dest).text| + 3..] == ExpNamed(LocNamed(st, k.dest).st, k.src).text) &&
      (k.PostDec? ==> EndsWith(t, "--") && t[..|t| - 2] == LocNamed(st, k.loc).text) &&
      (k.PostInc? ==> EndsWith(t, "++") && t[..|t| - 2] == LocNamed(st, k.loc).text) &&
      (k.Give? ==> "give " <= t && t[5..] == ExpNamed(st, k.output).text) &&
      (k.Take? ==> "take " <= t && t[5..] == LocNamed(st, k.recipient).text) &&
      (k.Return? && k.result.Some? ==> "return " <= t && t[7..] == ExpNamed(st, k.result.value).text) &&
      (k.Return? && k.result.None? ==> t == "return") &&
      (k.Exit? ==> t == Display.ExitSentence) &&
      (k.Call? ==> t == CallNamed(st, k.exp).text)
  {
  }

  /** `VarDecl::get_named_string`: the annotated declaration without the `;`. */
  function VarDeclString(v: VarDecl): string {
    var t := Display.TypeText(v.varType);
    Display.IdText(v.id) + "{" + t + "} : " + t + (if v.initVal.Some? then " = " + Display.ExpText(v.initVal.value) else "")
  }

  /** `VarDecl::named_unparse`: the name is declared at the current depth; the initialiser
      is printed with `Display` and not resolved. */
  function VarDeclNamed(st: NameState, v: VarDecl): (r: Named)
    ensures r.st == AddEntrySpec(st, v.id.name, Variable(v.varType))
    ensures r.text == VarDeclString(v) + ";"
  {
    var t := Display.TypeText(v.varType);
    var st1 := AddEntrySpec(st, v.id.name, Variable(v.varType));
    match v.initVal
    case Some(x) => Named(Display.IdText(v.id) + "{" + t + "} : " + t + " = " + Display.ExpText(x) + ";", st1)
    case None => Named(Display.IdText(v.id) + "{" + t + "} : " + t + ";", st1)
  }

  /** A declaration renders as its `Display` text with `{type}` after the name and without
      the final newline. */
  lemma VarDeclAnnotatesDisplay(st: NameState, v: VarDecl)
    ensures var n := |Display.IdText(v.id)|;
      VarDeclNamed(st, v).text + "\n" == Display.IdText(v.id) + "{" + Display.TypeText(v.varType) + "}" + Display.VarDeclText(v)[n..]
  {
    var id := Display.IdText(v.id);
    DisplaySplit(v);
    NamedSplit(st, v);
    assert Display.VarDeclText(v)[|id|..] == DeclTail(v);
  }

  /** What follows the name in a declaration's `Display` text. */
  function DeclTail(v: VarDecl): string {
    var t := Display.TypeText(v.varType);
    match v.initVal
    case Some(x) => " : " + t + " = " + Display.ExpText(x) + ";\n"
    case None => " : " + t + ";\n"
  }

  /** The `Display` text of a declaration is its name and then its tail. */
  lemma DisplaySplit(v: VarDecl)
    ensures Display.VarDeclText(v) == Display.IdText(v.id) + DeclTail(v)
  {
  }

  /** The annotated text is the name, `{type}`, then the same tail less its newline. */
  lemma NamedSplit(st: NameState, v: VarDecl)
    ensures VarDeclNamed(st, v).text + "\n" == Display.IdText(v.id) + "{" + Display.TypeText(v.varType) + "}" + DeclTail(v)
  {
    var id := Display.IdText(v.id);
    var t := Display.TypeText(v.varType);
    match v.initVal {
      case Some(x) => AnnotateSome(id, t, Display.ExpText(x));
      case None => AnnotateNone(id, t);
    }
  }

  /** The annotated text of a declaration with an initial value, regrouped around `{type}`. */
  lemma AnnotateSome(id: string, t: string, e: string)
    ensures id + "{" + t + "} : " + t + " = " + e + ";" + "\n" == id + "{" + t + "}" + (" : " + t + " = " + e + ";\n")
  {
    assert "} : " == "}" + " : " && ";\n" == ";" + "\n";
  }

  /** The annotated text of a declaration without one, regrouped the same way. */
  lemma AnnotateNone(id: string, t: string)
    ensures id + "{" + t + "} : " + t + ";" + "\n" == id + "{" + t + "}" + (" : " + t + ";\n")
  {
    assert "} : " == "}" + " : " && ";\n" == ";" + "\n";
  }

  function StmtNamed(st: NameState, s: Stmt): (r: Named)
    ensures StmtStep(st, r.st)
    decreases s
  {
    match s
    case Block(b) => BlockNamed(st, b)
    case Line(l) => var x := LineNamed(st, l); Named(x.text + ";", x.st)
    case VarDecl(v) => AddEntryStep(st, v.id.name, Variable(v.varType)); VarDeclNamed(st, v)
  }

  function StmtsNamed(st: NameState, ss: seq<Stmt>): (r: NamedSeq)
    ensures |r.texts| == |ss| && StmtStep(st, r.st)
    decreases ss
  {
    if ss == [] then NamedSeq([], st)
    else
      var x := StmtNamed(st, ss[0]);
      var rest := StmtsNamed(x.st, ss[1..]);
      StmtStepTrans(st, x.st, rest.st);
      NamedSeq([x.text] + rest.texts, rest.st)
  }

  /** The state a block body starts from: one level deeper than after the condition. */
  function Inner(st: NameState): NameState {
    st.(scope := st.scope + 1)
  }

  /** While, If and IfElse: the condition is rendered at the outer depth, the body (both
      branches of an IfElse, one after the other) one level deeper; afterwards that level's
      entries are gone and the depth is restored, while the entries of the outer depths are
      as they were. */
  function BlockNamed(st: NameState, b: BlockStmt): (r: Named)
    ensures StmtStep(st, r.st)
    ensures SameBelow(st.table, r.st.table, st.scope + 1)
    ensures forall k :: k in r.st.table ==> k.scope != st.scope + 1
    decreases b
  {
    var c := ExpNamed(st, b.cond);
    match b
    case While(_, body) =>
      var x := StmtsNamed(Inner(c.st), body);
      Named("while (" + c.text + ") {\n" + Join(x.texts, "") + "}\n", CloseScope(x.st))
    case If(_, body) =>
      var x := StmtsNamed(Inner(c.st), body);
      Named("if (" + c.text + ") {\n" + Join(x.texts, "") + "}\n", CloseScope(x.st))
    case IfElse(_, tb, fb) =>
      var t := StmtsNamed(Inner(c.st), tb);
      var f := StmtsNamed(t.st, fb);
      StmtStepTrans(Inner(c.st), t.st, f.st);
      Named("if (" + c.text + ") {\n" + Join(t.texts, "") + "}\nelse {\n" + Join(f.texts, "") + "}\n", CloseScope(f.st))
  }

  /** Both branches of an IfElse share one depth: declaring the same fresh, non-void name in
      each reports MultipleDecl. */
  lemma IfElseSharesDepth(st: NameState, c: Exp, v: VarDecl, w: VarDecl)
    requires v.id.name == w.id.name && !IsVoid(Variable(v.varType)) && !IsVoid(Variable(w.varType))
    requires SymbolKey(v.id.name, st.scope + 1) !in st.table
    ensures MultipleDecl in BlockNamed(st, IfElse(c, [Stmt.VarDecl(v)], [Stmt.VarDecl(w)])).st.errors
  {
    var key := SymbolKey(v.id.name, st.scope + 1);
    var cn := ExpNamed(st, c);
    var inner := Inner(cn.st);
    assert inner.table == st.table && inner.scope == st.scope + 1;
    var sv := StmtNamed(inner, Stmt.VarDecl(v));
    assert sv.st == AddEntrySpec(inner, v.id.name, Variable(v.varType));
    assert key in sv.st.table && sv.st.scope == inner.scope;
    var sw := StmtNamed(sv.st, Stmt.VarDecl(w));
    assert sw.st == AddEntrySpec(sv.st, w.id.name, Variable(w.varType));
    assert MultipleDecl in sw.st.errors;
    StmtsSingle(inner, Stmt.VarDecl(v));
    StmtsSingle(sv.st, Stmt.VarDecl(w));
    IfElseState(st, c, [Stmt.VarDecl(v)], [Stmt.VarDecl(w)]);
  }

  /** A one-statement list leaves the state its statement leaves. */
  lemma StmtsSingle(st: NameState, s: Stmt)
    ensures StmtsNamed(st, [s]).st == StmtNamed(st, s).st
  {
    assert [s][0] == s && [s][1..] == [];
  }

  /** The state after an IfElse: the condition, the true branch one level deeper, the false
      branch at that same depth, then the level closed. */
  lemma IfElseState(st: NameState, c: Exp, tb: seq<Stmt>, fb: seq<Stmt>)
    ensures var t := StmtsNamed(Inner(ExpNamed(st, c).st), tb);
      BlockNamed(st, IfElse(c, tb, fb)).st.errors == StmtsNamed(t.st, fb).st.errors
  {
  }

  // ---------------------------------------------------------------- formals and functions

  function FormalNamed(st: NameState, f: FormalDecl): (r: Named)
    ensures r.st == AddEntrySpec(st, FormalName(f), Variable(FormalType(f)))
  {
    match f
    case VarDecl(x) => VarDeclNamed(st, x)
    case FormalDecl(id, t) =>
      Named(Display.IdText(id) + "{" + Display.TypeText(t) + "} : " + Display.TypeText(t), AddEntrySpec(st, id.name, Variable(t)))
  }

  function FormalsNamed(st: NameState, fs: seq<FormalDecl>): (r: NamedSeq)
    ensures |r.texts| == |fs| && StmtStep(st, r.st)
    decreases |fs|
  {
    if fs == [] then NamedSeq([], st)
    else
      var x := FormalNamed(st, fs[0]);
      AddEntryStep(st, FormalName(fs[0]), Variable(FormalType(fs[0])));
      var rest := FormalsNamed(x.st, fs[1..]);
      StmtStepTrans(st, x.st, rest.st);
      NamedSeq([x.text] + rest.texts, rest.st)
  }

  /** The unparser and the function symbol `process_fn` gives back. */
  datatype Processed = Processed(st: NameState, kind: SymbolKind)

  /** `process_fn`: the depth goes up by one and is not lowered again, and the symbol maps
      each formal name to the type of its first formal with that name. */
  function ProcessFn(st: NameState, args: seq<FormalDecl>, ret: Type): (r: Processed)
    ensures r.st == st.(scope := st.scope + 1)
    ensures r.kind.Function? && r.kind.ret == ret
    ensures forall n :: ArgLookup(r.kind.args, n) == FirstFormal(args, n)
  {
    var t := ArgsAdd([], args);
    assert forall n :: ArgLookup(t, n) == FirstFormal(args, n) by {
      forall n ensures ArgLookup(t, n) == FirstFormal(args, n) {
        ArgsAddFirstWins([], args, n);
      }
    }
    Processed(st.(scope := st.scope + 1), Function(t, ret))
  }

  /** `FnDecl::get_named_string`: the body is rendered first and the formals after it, so
      the formals are declared only once the body has been resolved. */
  function FnStringNamed(st: NameState, f: FnDecl): (r: Named)
    ensures StmtStep(st, r.st)
  {
    var b := StmtsNamed(st, f.body);
    var body := Join(b.texts, "\n") + "\n";
    var a := FormalsNamed(b.st, f.args);
    var printArgs := Join(a.texts, ", ");
    var ret := Display.TypeText(f.ret);
    var fnType := "{(" + printArgs + ")->" + ret + "}";
    StmtStepTrans(st, b.st, a.st);
    Named(Display.IdText(f.id) + fnType + " : (" + printArgs + ") " + ret + " {\n" + body + "}\n", a.st)
  }

  /** `FnDecl::named_unparse`: the name is declared one level deeper than on entry, the body
      and formals two levels deeper and then removed; the depth ends one higher than on
      entry, and the entries of the depths up to the entry depth are untouched. */
  function FnDeclNamed(st: NameState, f: FnDecl): (r: Named)
    ensures r.st.scope == st.scope + 1 && r.st.classes == st.classes
    ensures SameBelow(st.table, r.st.table, st.scope + 1) && Reports(st, r.st)
  {
    var p := ProcessFn(st, f.args, f.ret);
    var st2 := AddEntrySpec(p.st, f.id.name, p.kind);
    var g := FnStringNamed(Inner(st2), f);
    Named(g.text, CloseScope(g.st))
  }

  /** The function symbol lands at depth+1 and stays there; an existing entry there is
      reported as MultipleDecl instead. */
  lemma FnDeclRegistersName(st: NameState, f: FnDecl)
    ensures var key := SymbolKey(f.id.name, st.scope + 1); var r := FnDeclNamed(st, f).st;
      key !in st.table ==> key in r.table && r.table[key] == Function(ArgsAdd([], f.args), f.ret)
    ensures var key := SymbolKey(f.id.name, st.scope + 1); var r := FnDeclNamed(st, f).st;
      key in st.table ==> key in r.table && r.table[key] == st.table[key] && |r.errors| > |st.errors| && r.errors[|st.errors|] == MultipleDecl
  {
    var key := SymbolKey(f.id.name, st.scope + 1);
    var p := ProcessFn(st, f.args, f.ret);
    var st2 := AddEntrySpec(p.st, f.id.name, p.kind);
    var g := FnStringNamed(Inner(st2), f);
    assert key in st2.table;
    assert key in g.st.table && g.st.table[key] == st2.table[key];
    if key in st.table {
      assert st2.errors == st.errors + [MultipleDecl];
    }
  }

  /** A body that hands over its own formal cannot see it: the formal is declared only
      after the body is rendered, so the lookup fails and the error flag is set. */
  lemma FormalNotVisibleInBody(st: NameState, f: FnDecl, x: Id, sp: Spans.Span)
    requires |f.args| >= 1 && FormalName(f.args[0]) == x.name && x.name != f.id.name
    requires forall d :: SymbolKey(x.name, d) !in st.table
    requires SymbolKey(f.id.name, st.scope + 1) !in st.table
    requires f.body == [Stmt.Line(LineStmt(sp, Give(Exp(sp, ExpKind.Loc(Loc.Loc(sp, LocKind.Id(x)))))))]
    ensures FnDeclNamed(st, f).st.error && |FnDeclNamed(st, f).st.errors| > |st.errors|
    ensures FnDeclNamed(st, f).st.errors[|st.errors|] == UndefinedDecl
  {
    var p := ProcessFn(st, f.args, f.ret);
    var st2 := AddEntrySpec(p.st, f.id.name, p.kind);
    assert st2.errors == st.errors;
    var st3 := Inner(st2);
    FindEntryInnermost(st3, x.name);
    assert FindEntrySpec(st3, x.name).kind.None?;
    var body := f.body[0];
    var line := StmtNamed(st3, body);
    assert line.st.errors == st.errors + [UndefinedDecl];
    assert f.body[1..] == [];
    var b := StmtsNamed(st3, f.body);
    assert b.st == StmtsNamed(line.st, []).st;
  }

  // ---------------------------------------------------------------- classes and programs

  /** The number of methods among a list of declarations. */
  function MethodCount(ds: seq<Decl>): nat {
    if ds == [] then 0 else (if ds[0].FnDecl? then 1 else 0) + MethodCount(ds[1..])
  }

  /** The name a variable or method member is registered under. */
  function MemberName(d: Decl): string
    requires !d.ClassDecl?
  {
    if d.VarDecl? then d.varDecl.id.name else d.fnDecl.id.name
  }

  /** Every field registered in `a` is still registered in `b`. */
  ghost predicate ClassesGrow(a: map<string, map<string, SymbolKind>>, b: map<string, map<string, SymbolKind>>) {
    forall c :: c in a ==> c in b && a[c].Keys <= b[c].Keys
  }

  /** One member of a class: a variable becomes a class entry, a method runs `process_fn`,
      becomes a class entry and is rendered with its body at the raised depth, which is not
      lowered again; a nested class is skipped. */
  function MemberNamed(st: NameState, classId: string, d: Decl): (r: NamedSeq)
    ensures r.st.scope == st.scope + (if d.FnDecl? then 1 else 0)
    ensures SameBelow(st.table, r.st.table, st.scope + 1) && Reports(st, r.st)
    ensures ClassesGrow(st.classes, r.st.classes)
    ensures !d.ClassDecl? ==> classId in r.st.classes && MemberName(d) in r.st.classes[classId] && |r.texts| == 1
    ensures d.ClassDecl? ==> r == NamedSeq([], st)
  {
    match d
    case VarDecl(x) =>
      NamedSeq([VarDeclString(x)], AddClassEntrySpec(st, classId, x.id.name, Variable(x.varType)))
    case FnDecl(x) =>
      var p := ProcessFn(st, x.args, x.ret);
      var st2 := AddClassEntrySpec(p.st, classId, x.id.name, p.kind);
      var g := FnStringNamed(st2, x);
      NamedSeq([g.text], g.st)
    case ClassDecl(_) => NamedSeq([], st)
  }

  /** The member loop of `ClassDecl::named_unparse`. */
  function MembersNamed(st: NameState, classId: string, ds: seq<Decl>): (r: NamedSeq)
    ensures r.st.scope == st.scope + MethodCount(ds)
    ensures SameBelow(st.table, r.st.table, st.scope + 1) && Reports(st, r.st)
    ensures ClassesGrow(st.classes, r.st.classes)
    ensures forall i :: 0 <= i < |ds| && !ds[i].ClassDecl? ==> classId in r.st.classes && MemberName(ds[i]) in r.st.classes[classId]
    decreases |ds|
  {
    if ds == [] then NamedSeq([], st)
    else
      var m := MemberNamed(st, classId, ds[0]);
      var rest := MembersNamed(m.st, classId, ds[1..]);
      MembersCons(st, m.st, rest.st, classId, ds);
      NamedSeq(m.texts + rest.texts, rest.st)
  }

  /** The first member's step followed by the rest's keeps what the member loop promises. */
  lemma MembersCons(st: NameState, m: NameState, r: NameState, classId: string, ds: seq<Decl>)
    requires ds != []
    requires m.scope == st.scope + (if ds[0].FnDecl? then 1 else 0)
    requires SameBelow(st.table, m.table, st.scope + 1) && Reports(st, m)
    requires ClassesGrow(st.classes, m.classes)
    requires !ds[0].ClassDecl? ==> classId in m.classes && MemberName(ds[0]) in m.classes[classId]
    requires r.scope == m.scope + MethodCount(ds[1..])
    requires SameBelow(m.table, r.table, m.scope + 1) && Reports(m, r)
    requires ClassesGrow(m.classes, r.classes)
    requires forall i :: 0 <= i < |ds[1..]| && !ds[1..][i].ClassDecl? ==> classId in r.classes && MemberName(ds[1..][i]) in r.classes[classId]
    ensures r.scope == st.scope + MethodCount(ds)
    ensures SameBelow(st.table, r.table, st.scope + 1) && Reports(st, r)
    ensures ClassesGrow(st.classes, r.classes)
    ensures forall i :: 0 <= i < |ds| && !ds[i].ClassDecl? ==> classId in r.classes && MemberName(ds[i]) in r.classes[classId]
  {
    SameBelowTrans(st.table, m.table, r.table, st.scope + 1, m.scope + 1);
    MembersConsListed(m, r, classId, ds);
  }

  /** The first member, listed after its own step, stays listed after the rest's. */
  lemma MembersConsListed(m: NameState, r: NameState, classId: string, ds: seq<Decl>)
    requires ds != []
    requires !ds[0].ClassDecl? ==> classId in m.classes && MemberName(ds[0]) in m.classes[classId]
    requires ClassesGrow(m.classes, r.classes)
    requires forall i :: 0 <= i < |ds[1..]| && !ds[1..][i].ClassDecl? ==> classId in r.classes && MemberName(ds[1..][i]) in r.classes[classId]
    ensures forall i :: 0 <= i < |ds| && !ds[i].ClassDecl? ==> classId in r.classes && MemberName(ds[i]) in r.classes[classId]
  {
    forall i | 0 <= i < |ds| && !ds[i].ClassDecl? ensures classId in r.classes && MemberName(ds[i]) in r.classes[classId] {
      if i > 0 {
        assert ds[i] == ds[1..][i - 1];
      }
    }
  }

  /** `ClassDecl::named_unparse`: `id{id} : class {`, the members joined by newlines, then
      `};`. */
  function ClassDeclNamed(st: NameState, c: ClassDecl): (r: Named)
    ensures Display.IdText(c.id) + "{" + Display.IdText(c.id) + "} : class {\n" <= r.text && EndsWith(r.text, "};\n")
    ensures r.st.scope == st.scope + MethodCount(c.memberF)
    ensures SameBelow(st.table, r.st.table, st.scope + 1) && Reports(st, r.st)
    ensures forall i :: 0 <= i < |c.memberF| && !c.memberF[i].ClassDecl? ==>
              c.id.name in r.st.classes && MemberName(c.memberF[i]) in r.st.classes[c.id.name]
  {
    var m := MembersNamed(st, c.id.name, c.memberF);
    var id := Display.IdText(c.id);
    Named(id + "{" + id + "} : class {\n" + Join(m.texts, "\n") + "};\n", m.st)
  }

  /** A class whose members are one variable renders that field inside the class frame, and
      records it in the class map with its type. */
  lemma ClassWithOneField(st: NameState, c: ClassDecl, v: VarDecl)
    requires c.memberF == [Decl.VarDecl(v)] && c.id.name !in st.classes
    ensures var id := Display.IdText(c.id);
      ClassDeclNamed(st, c).text == id + "{" + id + "} : class {\n" + VarDeclString(v) + "};\n"
    ensures ClassDeclNamed(st, c).st.classes[c.id.name] == map[v.id.name := Variable(v.varType)]
  {
    assert c.memberF[1..] == [];
    var m1 := MemberNamed(st, c.id.name, c.memberF[0]);
    assert m1.texts == [VarDeclString(v)];
    assert m1.st.classes[c.id.name] == map[v.id.name := Variable(v.varType)];
    var m := MembersNamed(st, c.id.name, c.memberF);
    assert m == NamedSeq(m1.texts + MembersNamed(m1.st, c.id.name, []).texts, MembersNamed(m1.st, c.id.name, []).st);
    assert m.texts == [VarDeclString(v)];
  }

  /** How much deeper a declaration leaves the unparser. */
  function DeclGrowth(d: Decl): nat {
    match d
    case VarDecl(_) => 0
    case ClassDecl(c) => MethodCount(c.memberF)
    case FnDecl(_) => 1
  }

  function DeclsGrowth(ds: seq<Decl>): nat {
    if ds == [] then 0 else DeclGrowth(ds[0]) + DeclsGrowth(ds[1..])
  }

  function DeclNamed(st: NameState, d: Decl): (r: Named)
    ensures r.st.scope == st.scope + DeclGrowth(d)
    ensures SameBelow(st.table, r.st.table, st.scope) && Reports(st, r.st)
  {
    match d
    case VarDecl(x) => VarDeclNamed(st, x)
    case ClassDecl(x) => ClassDeclNamed(st, x)
    case FnDecl(x) => FnDeclNamed(st, x)
  }

  /** The global declarations in order: each one leaves the depth where it raised it, so
      the depth only grows, and entries below the starting depth are never touched. */
  function DeclsNamed(st: NameState, ds: seq<Decl>): (r: NamedSeq)
    ensures |r.texts| == |ds|
    ensures r.st.scope == st.scope + DeclsGrowth(ds)
    ensures SameBelow(st.table, r.st.table, st.scope) && Reports(st, r.st)
    decreases |ds|
  {
    if ds == [] then NamedSeq([], st)
    else
      var x := DeclNamed(st, ds[0]);
      var rest := DeclsNamed(x.st, ds[1..]);
      SameBelowTrans(st.table, x.st.table, rest.st.table, st.scope, x.st.scope);
      NamedSeq([x.text] + rest.texts, rest.st)
  }

  /** The global declarations, rendered from a fresh unparser and joined by newlines. */
  function ProgramNamed(p: Program): Named {
    var r := DeclsNamed(InitState, p.globals);
    Named(Join(r.texts, "\n"), r.st)
  }

  /** `named_unparse` (src/analysis/name.rs): the re-indented rendering, or the empty text
      once any error was reported. */
  function NamedUnparseSpec(p: Program): (r: string)
    ensures ProgramNamed(p).st.error ==> r == ""
    ensures !ProgramNamed(p).st.error ==> r == Format.AddTabsSpec(ProgramNamed(p).text)
    ensures ProgramNamed(p).st.error <==> ProgramNamed(p).st.errors != []
  {
    var n := ProgramNamed(p);
    if !n.st.error then Format.AddTabsSpec(n.text) else ""
  }

  /** A void global is rejected: the whole output is empty. */
  lemma VoidGlobalRejected(p: Program)
    requires |p.globals| >= 1 && p.globals[0].VarDecl? && p.globals[0].varDecl.varType.kind == Prim(Void)
    ensures NamedUnparseSpec(p) == ""
  {
    var x := DeclNamed(InitState, p.globals[0]);
    assert x.st.error;
    var rest := DeclsNamed(x.st, p.globals[1..]);
    assert DeclsNamed(InitState, p.globals).st == rest.st;
  }

  /** At the global depth no name can be resolved: a second global function is registered
      one level deeper than the first, since each function leaves the depth raised. */
  lemma SecondFunctionDeeper(f: FnDecl, g: FnDecl)
    requires f.id.name != g.id.name
    ensures var r := DeclsNamed(InitState, [Decl.FnDecl(f), Decl.FnDecl(g)]).st;
      r.scope == 2 && SymbolKey(f.id.name, 1) in r.table && SymbolKey(g.id.name, 2) in r.table
  {
    var x := FnDeclNamed(InitState, f);
    assert DeclNamed(InitState, Decl.FnDecl(f)) == x;
    assert DeclNamed(x.st, Decl.FnDecl(g)) == FnDeclNamed(x.st, g);
    DeclsPair(InitState, Decl.FnDecl(f), Decl.FnDecl(g));
    TwoFunctionsState(f, g);
  }

  /** The state after two global functions, the first one at depth 1, the second at 2. */
  lemma TwoFunctionsState(f: FnDecl, g: FnDecl)
    requires f.id.name != g.id.name
    ensures var x := FnDeclNamed(InitState, f).st; var y := FnDeclNamed(x, g).st;
      y.scope == 2 && SymbolKey(f.id.name, 1) in y.table && SymbolKey(g.id.name, 2) in y.table
  {
    var kf := SymbolKey(f.id.name, 1);
    var kg := SymbolKey(g.id.name, 2);
    var x := FnDeclNamed(InitState, f);
    FnDeclRegistersName(InitState, f);
    FnDeclClosesBody(InitState, f);
    assert kf in x.st.table && kg !in x.st.table && x.st.scope == 1;
    var y := FnDeclNamed(x.st, g);
    FnDeclRegistersName(x.st, g);
    assert SameBelow(x.st.table, y.st.table, 2);
  }

  /** A function declaration leaves nothing at the depth of its body. */
  lemma FnDeclClosesBody(st: NameState, f: FnDecl)
    ensures forall k :: k in FnDeclNamed(st, f).st.table ==> k.scope != st.scope + 2
  {
    var p := ProcessFn(st, f.args, f.ret);
    var st2 := AddEntrySpec(p.st, f.id.name, p.kind);
    var g := FnStringNamed(Inner(st2), f);
    assert g.st.scope == st.scope + 2;
    assert FnDeclNamed(st, f).st == CloseScope(g.st);
  }

  /** Two declarations in a row. */
  lemma DeclsPair(st: NameState, a: Decl, b: Decl)
    ensures DeclsNamed(st, [a, b]).st == DeclNamed(DeclNamed(st, a).st, b).st
  {
    var ds := [a, b];
    assert ds[0] == a && ds[1..] == [b] && ds[1..][1..] == [];
    var x := DeclNamed(st, a);
    assert DeclsNamed(x.st, ds[1..]).st == DeclsNamed(DeclNamed(x.st, b).st, []).st;
  }

  // ---------------------------------------------------------------- the walk on the object

  lemma StmtsUnfold(st: NameState, ss: seq<Stmt>, i: nat)
    requires i < |ss|
    ensures StmtsNamed(st, ss[i..]).texts == [StmtNamed(st, ss[i]).text] + StmtsNamed(StmtNamed(st, ss[i]).st, ss[i + 1..]).texts
    ensures StmtsNamed(st, ss[i..]).st == StmtsNamed(StmtNamed(st, ss[i]).st, ss[i + 1..]).st
  {
    assert ss[i..][0] == ss[i] && ss[i..][1..] == ss[i + 1..];
  }

  lemma ExpsUnfold(st: NameState, es: seq<Exp>, i: nat)
    requires i < |es|
    ensures ExpsNamed(st, es[i..]).texts == [ExpNamed(st, es[i]).text] + ExpsNamed(ExpNamed(st, es[i]).st, es[i + 1..]).texts
    ensures ExpsNamed(st, es[i..]).st == ExpsNamed(ExpNamed(st, es[i]).st, es[i + 1..]).st
  {
    assert es[i..][0] == es[i] && es[i..][1..] == es[i + 1..];
  }

  method UnparseId(id: Id, u: NamedUnparser) returns (s: string)
    modifies u
    ensures s == IdNamed(old(u.State()), id).text && u.State() == IdNamed(old(u.State()), id).st
  {
    var k := u.FindEntry(id);
    match k
    case Some(x) => s := Display.IdText(id) + "{" + SymbolKindText(x) + "}";
    case None => s := "";
  }

  /** `named_unparse_helper` on the object. */
  method UnparseLocHelper(l: Loc, current: string, u: NamedUnparser) returns (s: string)
    modifies u
    ensures s == LocHelper(old(u.State()), l, current).text && u.State() == LocHelper(old(u.State()), l, current).st
    decreases l
  {
    match l.kind
    case Id(x) => s := UnparseId(x, u);
    case Loc(b, f) =>
      match b.kind {
        case Id(x) => s := UnparseId(x, u);
        case Loc(_, _) =>
          var next := if current == "" then Display.IdText(f) else Display.IdText(f) + "--" + current;
          s := UnparseLocHelper(b, next, u);
      }
  }

  method UnparseExp(e: Exp, u: NamedUnparser) returns (s: string)
    modifies u
    ensures s == ExpNamed(old(u.State()), e).text && u.State() == ExpNamed(old(u.State()), e).st
    decreases e
  {
    match e.kind
    case True => s := "true";
    case False => s := "false";
    case Magic => s := "magic";
    case UnaryExp(x) => s := UnparseUnary(x, u);
    case BinaryExp(x) => s := UnparseBinary(x, u);
    case CallExp(x) => s := UnparseCall(x, u);
    case IntLit(n) => s := IntToString(n);
    case StrLit(t) => s := t;
    case Loc(l) => s := UnparseLocHelper(l, "", u);
  }

  method UnparseUnary(x: UnaryExp, u: NamedUnparser) returns (s: string)
    modifies u
    ensures s == UnaryNamed(old(u.State()), x).text && u.State() == UnaryNamed(old(u.State()), x).st
    decreases x
  {
    var e := UnparseExp(x.exp, u);
    s := Display.UnaryOpText(x.kind) + e;
  }

  method UnparseBinary(x: BinaryExp, u: NamedUnparser) returns (s: string)
    modifies u
    ensures s == BinaryNamed(old(u.State()), x).text && u.State() == BinaryNamed(old(u.State()), x).st
    decreases x
  {
    var l := UnparseExp(x.lhs, u);
    var r := UnparseExp(x.rhs, u);
    s := l + " " + Display.BinaryOpText(x.kind) + " " + r;
  }

  method UnparseCall(x: CallExp, u: NamedUnparser) returns (s: string)
    modifies u
    ensures s == CallNamed(old(u.State()), x).text && u.State() == CallNamed(old(u.State()), x).st
    decreases x
  {
    var n := UnparseId(x.name, u);
    var a := UnparseExpVec(x.args, ", ", u);
    s := n + "(" + a + ")";
  }

  /** `named_unparse_vec` for expressions: each rendered in turn, then joined. */
  method UnparseExpVec(es: seq<Exp>, join: string, u: NamedUnparser) returns (s: string)
    modifies u
    ensures s == Join(ExpsNamed(old(u.State()), es).texts, join) && u.State() == ExpsNamed(old(u.State()), es).st
    decreases es
  {
    ghost var full := ExpsNamed(u.State(), es);
    var texts: seq<string> := [];
    for i := 0 to |es|
      invariant texts + ExpsNamed(u.State(), es[i..]).texts == full.texts
      invariant ExpsNamed(u.State(), es[i..]).st == full.st
    {
      ghost var pre := u.State();
      ExpsUnfold(pre, es, i);
      var x := UnparseExp(es[i], u);
      SnocRegroup(texts, x, ExpsNamed(u.State(), es[i + 1..]).texts);
      texts := texts + [x];
    }
    assert es[|es|..] == [];
    assert ExpsNamed(u.State(), es[|es|..]) == NamedSeq([], u.State());
    assert texts == full.texts;
    assert u.State() == full.st;
    assert full == ExpsNamed(old(u.State()), es);
    s := Join(texts, join);
  }

  method UnparseLine(l: LineStmt, u: NamedUnparser) returns (s: string)
    modifies u
    ensures s == LineNamed(old(u.State()), l).text && u.State() == LineNamed(old(u.State()), l).st
  {
    match l.kind
    case Assign(d, src) =>
      var x := UnparseLocHelper(d, "", u);
      var y := UnparseExp(src, u);
      s := x + " = " + y;
    case PostDec(x) => var n := UnparseLocHelper(x, "", u); s := n + "--";
    case PostInc(x) => var n := UnparseLocHelper(x, "", u); s := n + "++";
    case Give(o) => var n := UnparseExp(o, u); s := "give " + n;
    case Take(x) => var n := UnparseLocHelper(x, "", u); s := "take " + n;
    case Return(res) =>
      match res {
        case Some(x) => var n := UnparseExp(x, u); s := "return " + n;
        case None => s := "return";
      }
    case Exit => s := Display.ExitSentence;
    case Call(x) => s := UnparseCall(x, u);
  }

  method UnparseVarDecl(v: VarDecl, u: NamedUnparser) returns (s: string)
    modifies u
    ensures s == VarDeclNamed(old(u.State()), v).text && u.State() == VarDeclNamed(old(u.State()), v).st
  {
    u.AddEntry(v.id.name, Variable(v.varType));
    var t := Display.TypeText(v.varType);
    match v.initVal
    case Some(x) => s := Display.IdText(v.id) + "{" + t + "} : " + t + " = " + Display.ExpText(x) + ";";
    case None => s := Display.IdText(v.id) + "{" + t + "} : " + t + ";";
  }

  method UnparseStmt(st: Stmt, u: NamedUnparser) returns (s: string)
    modifies u
    ensures s == StmtNamed(old(u.State()), st).text && u.State() == StmtNamed(old(u.State()), st).st
    decreases st
  {
    match st
    case Block(b) => s := UnparseBlock(b, u);
    case Line(l) => var x := UnparseLine(l, u); s := x + ";";
    case VarDecl(v) => s := UnparseVarDecl(v, u);
  }

  /** `named_unparse_vec` for statements, and the body rendering of a function. */
  method UnparseStmtVec(ss: seq<Stmt>, join: string, u: NamedUnparser) returns (s: string)
    modifies u
    ensures s == Join(StmtsNamed(old(u.State()), ss).texts, join) && u.State() == StmtsNamed(old(u.State()), ss).st
    decreases ss
  {
    ghost var full := StmtsNamed(u.State(), ss);
    var texts: seq<string> := [];
    for i := 0 to |ss|
      invariant texts + StmtsNamed(u.State(), ss[i..]).texts == full.texts
      invariant StmtsNamed(u.State(), ss[i..]).st == full.st
    {
      ghost var pre := u.State();
      StmtsUnfold(pre, ss, i);
      var x := UnparseStmt(ss[i], u);
      SnocRegroup(texts, x, StmtsNamed(u.State(), ss[i + 1..]).texts);
      texts := texts + [x];
    }
    assert ss[|ss|..] == [];
    assert StmtsNamed(u.State(), ss[|ss|..]) == NamedSeq([], u.State());
    assert texts == full.texts;
    assert u.State() == full.st;
    assert full == StmtsNamed(old(u.State()), ss);
    s := Join(texts, join);
  }

  method UnparseBlock(b: BlockStmt, u: NamedUnparser) returns (s: string)
    modifies u
    ensures s == BlockNamed(old(u.State()), b).text && u.State() == BlockNamed(old(u.State()), b).st
    decreases b
  {
    var c := UnparseExp(b.cond, u);
    ghost var cst := u.State();
    assert cst == ExpNamed(old(u.State()), b.cond).st;
    u.scope := u.scope + 1;
    assert u.State() == Inner(cst);
    ghost var inner: NameState;
    match b {
      case While(_, body) =>
        var x := UnparseStmtVec(body, "", u);
        inner := u.State();
        assert inner == StmtsNamed(Inner(cst), body).st;
        s := "while (" + c + ") {\n" + x + "}\n";
      case If(_, body) =>
        var x := UnparseStmtVec(body, "", u);
        inner := u.State();
        assert inner == StmtsNamed(Inner(cst), body).st;
        s := "if (" + c + ") {\n" + x + "}\n";
      case IfElse(_, tb, fb) =>
        var t := UnparseStmtVec(tb, "", u);
        var f := UnparseStmtVec(fb, "", u);
        inner := u.State();
        assert inner == StmtsNamed(StmtsNamed(Inner(cst), tb).st, fb).st;
        s := "if (" + c + ") {\n" + t + "}\nelse {\n" + f + "}\n";
    }
    assert inner.scope == cst.scope + 1;
    u.RemoveScope(u.scope);
    u.scope := u.scope - 1;
    assert u.State() == CloseScope(inner);
    assert BlockNamed(old(u.State()), b).st == CloseScope(inner);
  }

  method UnparseFormal(f: FormalDecl, u: NamedUnparser) returns (s: string)
    modifies u
    ensures s == FormalNamed(old(u.State()), f).text && u.State() == FormalNamed(old(u.State()), f).st
  {
    match f
    case VarDecl(x) => s := UnparseVarDecl(x, u);
    case FormalDecl(id, t) =>
      u.AddEntry(id.name, Variable(t));
      s := Display.IdText(id) + "{" + Display.TypeText(t) + "} : " + Display.TypeText(t);
  }

  lemma FormalsUnfold(st: NameState, fs: seq<FormalDecl>, i: nat)
    requires i < |fs|
    ensures FormalsNamed(st, fs[i..]).texts == [FormalNamed(st, fs[i]).text] + FormalsNamed(FormalNamed(st, fs[i]).st, fs[i + 1..]).texts
    ensures FormalsNamed(st, fs[i..]).st == FormalsNamed(FormalNamed(st, fs[i]).st, fs[i + 1..]).st
  {
    assert fs[i..][0] == fs[i] && fs[i..][1..] == fs[i + 1..];
  }

  method UnparseFormalVec(fs: seq<FormalDecl>, u: NamedUnparser) returns (s: string)
    modifies u
    ensures s == Join(FormalsNamed(old(u.State()), fs).texts, ", ") && u.State() == FormalsNamed(old(u.State()), fs).st
  {
    ghost var full := FormalsNamed(u.State(), fs);
    var texts: seq<string> := [];
    for i := 0 to |fs|
      invariant texts + FormalsNamed(u.State(), fs[i..]).texts == full.texts
      invariant FormalsNamed(u.State(), fs[i..]).st == full.st
    {
      ghost var pre := u.State();
      FormalsUnfold(pre, fs, i);
      var x := UnparseFormal(fs[i], u);
      ghost var tail := FormalsNamed(u.State(), fs[i + 1..]).texts;
      SnocRegroup(texts, x, tail);
      texts := texts + [x];
    }
    assert fs[|fs|..] == [];
    assert FormalsNamed(u.State(), fs[|fs|..]) == NamedSeq([], u.State());
    assert texts == full.texts;
    assert u.State() == full.st;
    assert full == FormalsNamed(old(u.State()), fs);
    s := Join(texts, ", ");
  }

  /** `process_fn` on the object: the depth goes up, and each formal goes into the
      argument map. */
  method UnparseProcessFn(args: seq<FormalDecl>, ret: Type, u: NamedUnparser) returns (kind: SymbolKind)
    modifies u
    ensures kind == ProcessFn(old(u.State()), args, ret).kind && u.State() == ProcessFn(old(u.State()), args, ret).st
  {
    var argMap: ArgTable := [];
    u.scope := u.scope + 1;
    for i := 0 to |args|
      invariant ArgsAdd(argMap, args[i..]) == ArgsAdd([], args)
    {
      assert args[i..][0] == args[i] && args[i..][1..] == args[i + 1..];
      argMap := ArgAdd(argMap, FormalName(args[i]), FormalType(args[i]));
    }
    assert args[|args|..] == [];
    kind := Function(argMap, ret);
  }

  method UnparseFnString(f: FnDecl, u: NamedUnparser) returns (s: string)
    modifies u
    ensures s == FnStringNamed(old(u.State()), f).text && u.State() == FnStringNamed(old(u.State()), f).st
  {
    var body := UnparseStmtVec(f.body, "\n", u);
    body := body + "\n";
    var printArgs := UnparseFormalVec(f.args, u);
    var ret := Display.TypeText(f.ret);
    var fnType := "{(" + printArgs + ")->" + ret + "}";
    s := Display.IdText(f.id) + fnType + " : (" + printArgs + ") " + ret + " {\n" + body + "}\n";
  }

  method UnparseFnDecl(f: FnDecl, u: NamedUnparser) returns (s: string)
    modifies u
    ensures s == FnDeclNamed(old(u.State()), f).text && u.State() == FnDeclNamed(old(u.State()), f).st
  {
    ghost var p := ProcessFn(u.State(), f.args, f.ret);
    var kind := UnparseProcessFn(f.args, f.ret, u);
    u.AddEntry(f.id.name, kind);
    ghost var st2 := u.State();
    assert st2 == AddEntrySpec(p.st, f.id.name, p.kind);
    u.scope := u.scope + 1;
    assert u.State() == Inner(st2);
    s := UnparseFnString(f, u);
    ghost var g := u.State();
    assert g == FnStringNamed(Inner(st2), f).st && g.scope == st2.scope + 1;
    u.RemoveScope(u.scope);
    ghost var removed := u.State();
    assert removed == RemoveScopeSpec(g, g.scope);
    u.scope := u.scope - 1;
    assert u.State() == removed.(scope := removed.scope - 1);
    assert u.State() == CloseScope(g);
  }

  lemma MembersUnfold(st: NameState, classId: string, ds: seq<Decl>, i: nat)
    requires i < |ds|
    ensures var m := MemberNamed(st, classId, ds[i]);
      MembersNamed(st, classId, ds[i..]) == NamedSeq(m.texts + MembersNamed(m.st, classId, ds[i + 1..]).texts, MembersNamed(m.st, classId, ds[i + 1..]).st)
  {
    assert ds[i..][0] == ds[i] && ds[i..][1..] == ds[i + 1..];
  }

  /** One member of a class body, as `ClassDecl::named_unparse` treats it. */
  method UnparseMember(cid: string, d: Decl, u: NamedUnparser) returns (out: seq<string>)
    modifies u
    ensures out == MemberNamed(old(u.State()), cid, d).texts && u.State() == MemberNamed(old(u.State()), cid, d).st
  {
    match d
    case VarDecl(x) =>
      u.AddClassEntry(cid, x.id.name, Variable(x.varType));
      out := [VarDeclString(x)];
    case FnDecl(x) =>
      var kind := UnparseProcessFn(x.args, x.ret, u);
      u.AddClassEntry(cid, x.id.name, kind);
      var text := UnparseFnString(x, u);
      out := [text];
    case ClassDecl(_) =>
      out := [];
  }

  /** The member loop of `ClassDecl::named_unparse`. */
  method UnparseMembers(cid: string, ms: seq<Decl>, u: NamedUnparser) returns (outputs: seq<string>)
    modifies u
    ensures outputs == MembersNamed(old(u.State()), cid, ms).texts && u.State() == MembersNamed(old(u.State()), cid, ms).st
  {
    ghost var full := MembersNamed(u.State(), cid, ms);
    outputs := [];
    for i := 0 to |ms|
      invariant outputs + MembersNamed(u.State(), cid, ms[i..]).texts == full.texts
      invariant MembersNamed(u.State(), cid, ms[i..]).st == full.st
    {
      ghost var pre := u.State();
      MembersUnfold(pre, cid, ms, i);
      var out := UnparseMember(cid, ms[i], u);
      AppendRegroup(outputs, out, MembersNamed(u.State(), cid, ms[i + 1..]).texts);
      outputs := outputs + out;
    }
    assert ms[|ms|..] == [];
    assert MembersNamed(u.State(), cid, ms[|ms|..]) == NamedSeq([], u.State());
    assert full == MembersNamed(old(u.State()), cid, ms);
  }

  method UnparseClassDecl(c: ClassDecl, u: NamedUnparser) returns (s: string)
    modifies u
    ensures s == ClassDeclNamed(old(u.State()), c).text && u.State() == ClassDeclNamed(old(u.State()), c).st
  {
    var fieldOutputs := UnparseMembers(c.id.name, c.memberF, u);
    var id := Display.IdText(c.id);
    s := id + "{" + id + "} : class {\n" + Join(fieldOutputs, "\n") + "};\n";
  }

  method UnparseDecl(d: Decl, u: NamedUnparser) returns (s: string)
    modifies u
    ensures s == DeclNamed(old(u.State()), d).text && u.State() == DeclNamed(old(u.State()), d).st
  {
    match d
    case VarDecl(x) => s := UnparseVarDecl(x, u);
    case ClassDecl(x) => s := UnparseClassDecl(x, u);
    case FnDecl(x) => s := UnparseFnDecl(x, u);
  }

  lemma DeclsUnfold(st: NameState, ds: seq<Decl>, i: nat)
    requires i < |ds|
    ensures DeclsNamed(st, ds[i..]).texts == [DeclNamed(st, ds[i]).text] + DeclsNamed(DeclNamed(st, ds[i]).st, ds[i + 1..]).texts
    ensures DeclsNamed(st, ds[i..]).st == DeclsNamed(DeclNamed(st, ds[i]).st, ds[i + 1..]).st
  {
    assert ds[i..][0] == ds[i] && ds[i..][1..] == ds[i + 1..];
  }

  method UnparseProgram(p: Program, u: NamedUnparser) returns (s: string)
    modifies u
    ensures s == Join(DeclsNamed(old(u.State()), p.globals).texts, "\n") && u.State() == DeclsNamed(old(u.State()), p.globals).st
  {
    var ds := p.globals;
    ghost var full := DeclsNamed(u.State(), ds);
    var texts: seq<string> := [];
    for i := 0 to |ds|
      invariant texts + DeclsNamed(u.State(), ds[i..]).texts == full.texts
      invariant DeclsNamed(u.State(), ds[i..]).st == full.st
    {
      ghost var pre := u.State();
      DeclsUnfold(pre, ds, i);
      var x := UnparseDecl(ds[i], u);
      SnocRegroup(texts, x, DeclsNamed(u.State(), ds[i + 1..]).texts);
      texts := texts + [x];
    }
    assert ds[|ds|..] == [];
    assert DeclsNamed(u.State(), ds[|ds|..]) == NamedSeq([], u.State());
    assert texts == full.texts;
    assert u.State() == full.st;
    assert full == DeclsNamed(old(u.State()), p.globals);
    s := Join(texts, "\n");
  }

  /** `named_unparse`: a fresh unparser renders the program, the text is re-indented, and
      it is returned only when no error was reported. */
  method NamedUnparse(p: Program) returns (r: string)
    ensures r == NamedUnparseSpec(p)
  {
    var u := new NamedUnparser();
    var text := UnparseProgram(p, u);
    var tabbed := Format.AddTabs(text);
    if !u.error {
      r := tabbed;
    } else {
      r := "";
    }
  }
}
