/** The older name-annotating unparser (src/parser/named_unparser/named_node.rs) over the
    older AST. It renders like the newer one but scopes differently: a lookup tries the
    current depth and then depth 0 only, `process_fn` declares the formals one level deeper
    and lowers the depth again, a function restores the depth after its body, and a
    function's formals are declared a second time after its body. Each `*Named` function
    gives the text and the unparser afterwards; the `Unparse*` methods do the same walk on
    a `NamedUnparser` object. Identifiers, types and initialisers print as the `Debug`
    printer writes them, which agrees with `Display` (Debug.ExpDebugAgrees). */
module ParserNamedNode {
  import opened Wrappers
  import opened Strings
  import opened AstOld
  import opened ParserNames
  import Names
  import Debug
  import Display

  /** A rendered node and the unparser state after it. */
  datatype Named = Named(text: string, st: NameState)

  /** Rendered nodes of a list, in order, and the unparser state after the last one. */
  datatype NamedSeq = NamedSeq(texts: seq<string>, st: NameState)

  // ---------------------------------------------------------------- what a walk may change

  predicate OnlyUndefined(errs: seq<NameError>) {
    forall i :: 0 <= i < |errs| ==> errs[i] == Names.UndefinedDecl
  }

  /** The flag is set exactly when something was reported, reports are only appended. */
  predicate Reports(st: NameState, r: NameState) {
    st.errors <= r.errors && r.error == (st.error || |r.errors| > |st.errors|)
  }

  /** Rendering an expression or a line only looks names up. */
  predicate ExprStep(st: NameState, r: NameState) {
    r.scope == st.scope && r.table == st.table && r.classes == st.classes
    && Reports(st, r) && OnlyUndefined(r.errors[|st.errors|..])
  }

  /** The entries at depths below `d` are the same in both tables. */
  ghost predicate SameBelow(t1: map<SymbolKey, SymbolKind>, t2: map<SymbolKey, SymbolKind>, d: nat) {
    forall k: SymbolKey :: k.scope < d ==> (k in t1 <==> k in t2) && (k in t1 ==> t1[k] == t2[k])
  }

  /** Every entry of `t1` at a depth up to `d` is still in `t2`, unchanged. */
  ghost predicate Kept(t1: map<SymbolKey, SymbolKind>, t2: map<SymbolKey, SymbolKind>, d: nat) {
    forall k: SymbolKey :: k in t1 && k.scope <= d ==> k in t2 && t2[k] == t1[k]
  }

  /** A statement keeps the depth and the classes and leaves the enclosing depths alone. */
  ghost predicate StmtStep(st: NameState, r: NameState) {
    r.scope == st.scope && r.classes == st.classes && SameBelow(st.table, r.table, st.scope) && Reports(st, r)
  }

  lemma ExprStepTrans(a: NameState, b: NameState, c: NameState)
    requires ExprStep(a, b) && ExprStep(b, c)
    ensures ExprStep(a, c)
  {
    assert c.errors[|a.errors|..] == b.errors[|a.errors|..] + c.errors[|b.errors|..];
  }

  lemma SameBelowTrans(t1: map<SymbolKey, SymbolKind>, t2: map<SymbolKey, SymbolKind>, t3: map<SymbolKey, SymbolKind>, d1: nat, d2: nat)
    requires SameBelow(t1, t2, d1) && SameBelow(t2, t3, d2) && d1 <= d2
    ensures SameBelow(t1, t3, d1)
  {
  }

  lemma StmtStepTrans(a: NameState, b: NameState, c: NameState)
    requires StmtStep(a, b) && StmtStep(b, c)
    ensures StmtStep(a, c)
  {
    SameBelowTrans(a.table, b.table, c.table, a.scope, b.scope);
  }

  /** `remove_scope(scope)` followed by `scope -= 1`, the way every scope is closed; as in
      the newer walk, but over the older table's state. */
  function CloseScope(st: NameState): (r: NameState)
    requires st.scope > 0
    ensures r.scope == st.scope - 1 && r.classes == st.classes && r.error == st.error && r.errors == st.errors
    ensures forall k :: k in r.table <==> k in st.table && k.scope != st.scope
    ensures forall k :: k in r.table ==> r.table[k] == st.table[k]
  {
    var s := RemoveScopeSpec(st, st.scope);
    s.(scope := s.scope - 1)
  }

  /** One level deeper. */
  function Inner(st: NameState): NameState {
    st.(scope := st.scope + 1)
  }

  // ---------------------------------------------------------------- names

  /** The two-key lookup: the name at the current depth, or else at depth 0. */
  function Lookup(st: NameState, name: string): Option<SymbolKind> {
    var key := SymbolKey(name, st.scope);
    var key2 := SymbolKey(name, 0);
    if key in st.table then Some(st.table[key])
    else if key2 in st.table then Some(st.table[key2])
    else None
  }

  /** A declaration at a depth strictly between the global one and the current one is never
      found, even when it is the only declaration of the name. */
  lemma LookupSkipsMiddleDepths(st: NameState, name: string, d: nat)
    requires 0 < d < st.scope && SymbolKey(name, d) in st.table
    requires SymbolKey(name, st.scope) !in st.table && SymbolKey(name, 0) !in st.table
    ensures Lookup(st, name) == None
  {
  }

  /** `get_id_named_string`: `name{kind}` on a hit and the empty text (with UndefinedDecl
      reported) on a miss. */
  function GetIdNamedString(st: NameState, name: string): (r: Named)
    ensures ExprStep(st, r.st)
    ensures r.st.errors == st.errors + (if Lookup(st, name).None? then [Names.UndefinedDecl] else [])
  {
    match Lookup(st, name)
    case Some(k) => Named(name + "{" + SymbolKindText(k) + "}", st)
    case None =>
      var r := ReportErrorSpec(st, Names.UndefinedDecl);
      assert r.errors[|st.errors|..] == [Names.UndefinedDecl];
      Named("", r)
  }

  /** `Id::named_unparse`, which writes the same two-key lookup out again. */
  function IdNamed(st: NameState, id: Id): (r: Named)
    ensures ExprStep(st, r.st)
  {
    var key := SymbolKey(id.name, st.scope);
    var key2 := SymbolKey(id.name, 0);
    if key in st.table then Named(id.name + "{" + SymbolKindText(st.table[key]) + "}", st)
    else if key2 in st.table then Named(id.name + "{" + SymbolKindText(st.table[key2]) + "}", st)
    else
      var r := ReportErrorSpec(st, Names.UndefinedDecl);
      assert r.errors[|st.errors|..] == [Names.UndefinedDecl];
      Named("", r)
  }

  /** The two lookups agree, and a name renders non-empty exactly when it is declared at
      the current depth or at depth 0, a current-depth declaration winning. */
  lemma IdResolves(st: NameState, id: Id)
    ensures IdNamed(st, id) == GetIdNamedString(st, Debug.IdDebug(id))
    ensures IdNamed(st, id).text != "" <==> SymbolKey(id.name, st.scope) in st.table || SymbolKey(id.name, 0) in st.table
    ensures SymbolKey(id.name, st.scope) in st.table ==>
              IdNamed(st, id).text == id.name + "{" + SymbolKindText(st.table[SymbolKey(id.name, st.scope)]) + "}"
  {
  }

  /** The identifier a location starts from. */
  function RootId(l: Loc): Id {
    match l
    case Id(x) => x
    case Loc(b, _) => RootId(b)
  }

  /** `named_unparse_helper`: a plain name and a field access with a plain base both look
      up that base; a longer chain recurses on its base with the path so far, which is never
      used. So every location renders as the lookup of its root identifier. */
  function LocHelper(st: NameState, l: Loc, current: string): (r: Named)
    ensures r == GetIdNamedString(st, RootId(l).name)
  {
    match l
    case Id(x) => GetIdNamedString(st, Debug.IdDebug(x))
    case Loc(b, f) =>
      match b
      case Id(_) => GetIdNamedString(st, Debug.LocDebug(b))
      case Loc(_, _) =>
        LocHelper(st, b, if current == "" then Debug.IdDebug(f) else Debug.IdDebug(f) + "--" + current)
  }

  /** A location of the older AST: the lookup of its root, as `LocHelper` gives it. */
  function LocNamed(st: NameState, l: Loc): (r: Named)
    ensures ExprStep(st, r.st)
  {
    LocHelper(st, l, "")
  }

  // ---------------------------------------------------------------- expressions

  function ExpNamed(st: NameState, e: Exp): (r: Named)
    ensures ExprStep(st, r.st)
    decreases e
  {
    match e
    case True => Named("true", st)
    case False => Named("false", st)
    case Magic => Named("magic", st)
    case UnaryExp(u) => UnaryNamed(st, u)
    case BinaryExp(b) => BinaryNamed(st, b)
    case CallExp(c) => CallNamed(st, c)
    case IntLit(n) => Named(IntToString(n), st)
    case StrLit(s) => Named(s, st)
    case Loc(l) => LocNamed(st, l)
  }

  function UnaryNamed(st: NameState, u: UnaryExp): (r: Named)
    ensures ExprStep(st, r.st)
    decreases u
  {
    var x := ExpNamed(st, u.exp);
    match u
    case Neg(_) => Named("-" + x.text, x.st)
    case Not(_) => Named("!" + x.text, x.st)
  }

  function BinaryNamed(st: NameState, b: BinaryExp): (r: Named)
    ensures ExprStep(st, r.st)
    decreases b
  {
    var l := ExpNamed(st, b.lhs);
    var r := ExpNamed(l.st, b.rhs);
    ExprStepTrans(st, l.st, r.st);
    Named(l.text + " " + Display.BinaryOpText(Debug.OpKind(b)) + " " + r.text, r.st)
  }

  function CallNamed(st: NameState, c: CallExp): (r: Named)
    ensures ExprStep(st, r.st)
    decreases c
  {
    var n := IdNamed(st, c.name);
    var a := ExpsNamed(n.st, c.args);
    ExprStepTrans(st, n.st, a.st);
    Named(n.text + "(" + Join(a.texts, ", ") + ")", a.st)
  }

  function ExpsNamed(st: NameState, es: seq<Exp>): (r: NamedSeq)
    ensures |r.texts| == |es| && ExprStep(st, r.st)
    decreases es
  {
    if es == [] then NamedSeq([], st)
    else
      var x := ExpNamed(st, es[0]);
      var rest := ExpsNamed(x.st, es[1..]);
      ExprStepTrans(st, x.st, rest.st);
      NamedSeq([x.text] + rest.texts, rest.st)
  }

  /** No name is looked up inside: no location and no call. */
  predicate NoNames(e: Exp)
    decreases e
  {
    match e
    case UnaryExp(u) => NoNames(u.exp)
    case BinaryExp(b) => NoNames(b.lhs) && NoNames(b.rhs)
    case CallExp(_) => false
    case Loc(_) => false
    case _ => true
  }

  /** Without names, the named rendering is the plain printed text and nothing is
      reported. */
  lemma {:induction false} ExpNamedWithoutNames(st: NameState, e: Exp)
    requires NoNames(e)
    ensures ExpNamed(st, e) == Named(Debug.ExpDebug(e), st)
    decreases e
  {
    match e
    case UnaryExp(u) =>
      ExpNamedWithoutNames(st, u.exp);
      assert Debug.ExpDebug(e) == Debug.UnaryDebug(u);
      assert ExpNamed(st, e) == UnaryNamed(st, u);
    case BinaryExp(b) =>
      ExpNamedWithoutNames(st, b.lhs);
      ExpNamedWithoutNames(st, b.rhs);
      assert Debug.ExpDebug(e) == Debug.BinaryDebug(b);
      assert ExpNamed(st, e) == BinaryNamed(st, b);
    case _ =>
  }

  /** A negation or a not renders as `-` or `!` immediately followed by the operand's
      rendering, and leaves the unparser as the operand leaves it. */
  lemma UnaryNamedShape(st: NameState, u: UnaryExp)
    ensures var x := ExpNamed(st, u.exp); var r := UnaryNamed(st, u);
      |r.text| == |x.text| + 1 && r.text[0] == (if u.Neg? then '-' else '!') &&
      r.text[1..] == x.text && r.st == x.st
  {
  }

  /** A binary expression renders as the left operand, the operator's spelling between
      single spaces, then the right operand, which is rendered after the left one. */
  lemma BinaryNamedShape(st: NameState, b: BinaryExp)
    ensures var l := ExpNamed(st, b.lhs); var x := ExpNamed(l.st, b.rhs); var r := BinaryNamed(st, b);
      var op := " " + Display.BinaryOpText(Debug.OpKind(b)) + " ";
      l.text + op <= r.text && r.text[|l.text| + |op|..] == x.text && r.st == x.st
  {
    var l := ExpNamed(st, b.lhs);
    var x := ExpNamed(l.st, b.rhs);
    assert BinaryNamed(st, b).text == l.text + " " + Display.BinaryOpText(Debug.OpKind(b)) + " " + x.text;
    SpacedShape(l.text, Display.BinaryOpText(Debug.OpKind(b)), x.text);
  }

  /** A call renders as its name's lookup, then the arguments' renderings joined by `, ` in
      parentheses; the arguments are rendered after the name, in order. */
  lemma CallNamedShape(st: NameState, c: CallExp)
    ensures var n := IdNamed(st, c.name); var a := ExpsNamed(n.st, c.args); var r := CallNamed(st, c);
      n.text + "(" <= r.text && r.text[|r.text| - 1] == ')' &&
      r.text[|n.text| + 1..|r.text| - 1] == Join(a.texts, ", ") && |a.texts| == |c.args| && r.st == a.st
  {
  }

  // ---------------------------------------------------------------- statements

  function LineNamed(st: NameState, l: LineStmt): (r: Named)
    ensures ExprStep(st, r.st)
  {
    match l
    case Assign(d, s) =>
      var x := LocNamed(st, d);
      var y := ExpNamed(x.st, s);
      ExprStepTrans(st, x.st, y.st);
      Named(x.text + " = " + y.text, y.st)
    case PostDec(x) => var n := LocNamed(st, x); Named(n.text + "--", n.st)
    case PostInc(x) => var n := LocNamed(st, x); Named(n.text + "++", n.st)
    case Give(o) => var n := ExpNamed(st, o); Named("give " + n.text, n.st)
    case Take(x) => var n := LocNamed(st, x); Named("take " + n.text, n.st)
    case Return(res) =>
      if res.Some? then var n := ExpNamed(st, res.value); Named("return " + n.text, n.st)
      else Named("return", st)
    case Exit => Named(Display.ExitSentence, st)
    case Call(c) => CallNamed(st, c)
  }

  /** Each line statement renders around its parts' renderings: `lhs = rhs`, `x--`, `x++`,
      `give e`, `take x`, `return e` or `return`, the exit sentence, or the call itself. */
  lemma LineNamedShape(st: NameState, l: LineStmt)
    ensures var t := LineNamed(st, l).text;
      (l.Assign? ==>
         LocNamed(st, l.dest).text + " = " <= t &&
         t[|LocNamed(st, l.dest).text| + 3..] == ExpNamed(LocNamed(st, l.dest).st, l.src).text) &&
      (l.PostDec? ==> EndsWith(t, "--") && t[..|t| - 2] == LocNamed(st, l.loc).text) &&
      (l.PostInc? ==> EndsWith(t, "++") && t[..|t| - 2] == LocNamed(st, l.loc).text) &&
      (l.Give? ==> "give " <= t && t[5..] == ExpNamed(st, l.output).text) &&
      (l.Take? ==> "take " <= t && t[5..] == LocNamed(st, l.recipient).text) &&
      (l.Return? && l.result.Some? ==> "return " <= t && t[7..] == ExpNamed(st, l.result.value).text) &&
      (l.Return? && l.result.None? ==> t == "return") &&
      (l.Exit? ==> t == Display.ExitSentence) &&
      (l.Call? ==> t == CallNamed(st, l.exp).text)
  {
  }

  /** `VarDecl::get_named_string`: the annotated declaration without the `;`. */
  function VarDeclString(v: VarDecl): string {
    var t := Debug.TypeDebug(v.varType);
    Debug.IdDebug(v.id) + "{" + t + "} : " + t + (if v.initVal.Some? then " = " + Debug.ExpDebug(v.initVal.value) else "")
  }

  /** `VarDecl::named_unparse`: the name is declared at the current depth; the initialiser
      is printed, not resolved. */
  function VarDeclNamed(st: NameState, v: VarDecl): (r: Named)
    ensures r.st == AddEntrySpec(st, v.id.name, Variable(v.varType))
    ensures r.text == VarDeclString(v) + ";"
  {
    var t := Debug.TypeDebug(v.varType);
    var st1 := AddEntrySpec(st, Debug.IdDebug(v.id), Variable(v.varType));
    match v.initVal
    case Some(x) => Named(Debug.IdDebug(v.id) + "{" + t + "} : " + t + " = " + Debug.ExpDebug(x) + ";", st1)
    case None => Named(Debug.IdDebug(v.id) + "{" + t + "} : " + t + ";", st1)
  }

  function StmtNamed(st: NameState, s: Stmt): (r: Named)
    ensures StmtStep(st, r.st)
    decreases s
  {
    match s
    case Block(b) => BlockNamed(st, b)
    case Line(l) => var x := LineNamed(st, l); Named(x.text + ";", x.st)
    case VarDecl(v) => VarDeclNamed(st, v)
  }

  function StmtsNamed(st: NameState, ss: seq<Stmt>): (r: NamedSeq)
    ensures |r.texts| == |ss| && StmtStep(st, r.st)
    decreases ss
  {
    if ss == [] then NamedSeq([], st)
    else
      var x := StmtNamed(st, ss[0]);
      var rest := StmtsNamed(x.st, ss[1..]);
      StmtStepTrans(st, x.st, rest.st);
      NamedSeq([x.text] + rest.texts, rest.st)
  }

  /** While, If and IfElse: the condition at the outer depth, the body one level deeper;
      afterwards that level's entries are gone and the depth is restored. */
  function BlockNamed(st: NameState, b: BlockStmt): (r: Named)
    ensures StmtStep(st, r.st)
    ensures SameBelow(st.table, r.st.table, st.scope + 1)
    ensures forall k :: k in r.st.table ==> k.scope != st.scope + 1
    decreases b
  {
    var c := ExpNamed(st, b.cond);
    match b
    case While(_, body) =>
      var x := StmtsNamed(Inner(c.st), body);
      BlockCloses(st, c.st, x.st);
      Named("while (" + c.text + ") {\n" + Join(x.texts, "") + "}\n", CloseScope(x.st))
    case If(_, body) =>
      var x := StmtsNamed(Inner(c.st), body);
      BlockCloses(st, c.st, x.st);
      Named("if (" + c.text + ") {\n" + Join(x.texts, "") + "}\n", CloseScope(x.st))
    case IfElse(_, tb, fb) =>
      var t := StmtsNamed(Inner(c.st), tb);
      var f := StmtsNamed(t.st, fb);
      StmtStepTrans(Inner(c.st), t.st, f.st);
      BlockCloses(st, c.st, f.st);
      Named("if (" + c.text + ") {\n" + Join(t.texts, "") + "}\nelse {\n" + Join(f.texts, "") + "}\n", CloseScope(f.st))
  }

  /** A condition, then a body one level deeper, then that level removed: a statement step
      that leaves nothing at the body's depth. */
  lemma BlockCloses(st: NameState, c: NameState, x: NameState)
    requires ExprStep(st, c) && StmtStep(Inner(c), x)
    ensures var r := CloseScope(x);
      StmtStep(st, r) && SameBelow(st.table, r.table, st.scope + 1) && forall k :: k in r.table ==> k.scope != st.scope + 1
  {
  }

  /** Inside a block a local of the enclosing function body is out of sight: the block's
      lookups try only the block's own depth and depth 0. */
  lemma EnclosingLocalHidden(st: NameState, x: Id)
    requires st.scope > 0 && SymbolKey(x.name, st.scope) in st.table
    requires SymbolKey(x.name, st.scope + 1) !in st.table && SymbolKey(x.name, 0) !in st.table
    ensures IdNamed(Inner(st), x).text == ""
    ensures IdNamed(Inner(st), x).st.errors == st.errors + [Names.UndefinedDecl]
  {
    LookupSkipsMiddleDepths(Inner(st), x.name, st.scope);
  }

  // ---------------------------------------------------------------- formals and functions

  /** Each formal declared in order with `add_entry`, as a variable of its type. */
  function AddFormals(st: NameState, args: seq<FormalDecl>): (r: NameState)
    ensures StmtStep(st, r) && Kept(st.table, r.table, st.scope)
    decreases |args|
  {
    if args == [] then st
    else
      var st1 := AddEntrySpec(st, FormalName(args[0]), Variable(FormalType(args[0])));
      var r := AddFormals(st1, args[1..]);
      StmtStepTrans(st, st1, r);
      r
  }

  function FormalNamed(st: NameState, f: FormalDecl): (r: Named)
    ensures r.st == AddEntrySpec(st, FormalName(f), Variable(FormalType(f)))
  {
    match f
    case VarDecl(x) => VarDeclNamed(st, x)
    case FormalDecl(id, t) =>
      var tt := Debug.TypeDebug(t);
      Named(Debug.IdDebug(id) + "{" + tt + "} : " + tt, AddEntrySpec(st, Debug.IdDebug(id), Variable(t)))
  }

  /** Rendering the formals declares them exactly as `process_fn` does. */
  function FormalsNamed(st: NameState, fs: seq<FormalDecl>): (r: NamedSeq)
    ensures |r.texts| == |fs| && r.st == AddFormals(st, fs)
    decreases |fs|
  {
    if fs == [] then NamedSeq([], st)
    else
      var x := FormalNamed(st, fs[0]);
      var rest := FormalsNamed(x.st, fs[1..]);
      NamedSeq([x.text] + rest.texts, rest.st)
  }

  /** The unparser and the function symbol `process_fn` gives back. */
  datatype Processed = Processed(st: NameState, kind: SymbolKind)

  /** `process_fn`: the formals are declared one level deeper, the depth is lowered again,
      and the formal entries stay in the table; the symbol maps each formal name to the type
      of its first formal with that name. */
  function ProcessFn(st: NameState, args: seq<FormalDecl>, ret: Type): (r: Processed)
    ensures r.st.scope == st.scope && r.st.classes == st.classes && Reports(st, r.st)
    ensures SameBelow(st.table, r.st.table, st.scope + 1)
    ensures r.kind.Function? && r.kind.ret == ret
    ensures forall n :: ArgLookup(r.kind.args, n) == FirstFormal(args, n)
  {
    var a := AddFormals(Inner(st), args);
    var t := ArgsAdd([], args);
    assert forall n :: ArgLookup(t, n) == FirstFormal(args, n) by {
      forall n ensures ArgLookup(t, n) == FirstFormal(args, n) {
        ArgsAddFirstWins([], args, n);
      }
    }
    Processed(a.(scope := st.scope), Function(t, ret))
  }

  /** The first formal, when it is not void and its name is free one level deeper, is left
      in the table at that depth. */
  lemma ProcessFnLeavesFormal(st: NameState, args: seq<FormalDecl>, ret: Type)
    requires |args| >= 1 && !IsVoid(Variable(FormalType(args[0])))
    requires SymbolKey(FormalName(args[0]), st.scope + 1) !in st.table
    ensures SymbolKey(FormalName(args[0]), st.scope + 1) in ProcessFn(st, args, ret).st.table
  {
    var key := SymbolKey(FormalName(args[0]), st.scope + 1);
    var st1 := AddEntrySpec(Inner(st), FormalName(args[0]), Variable(FormalType(args[0])));
    assert key in st1.table;
    var a := AddFormals(st1, args[1..]);
    assert a == AddFormals(Inner(st), args);
  }

  /** `FnDecl::get_named_string`: the body first, then the formals, rendered (and so
      declared) again. */
  function FnStringNamed(st: NameState, f: FnDecl): (r: Named)
    ensures StmtStep(st, r.st)
  {
    var b := StmtsNamed(st, f.body);
    var body := Join(b.texts, "\n") + "\n";
    var a := FormalsNamed(b.st, f.args);
    var printArgs := Join(a.texts, ", ");
    var ret := Debug.TypeDebug(f.ret);
    var fnType := "{(" + printArgs + ")->" + ret + "}";
    StmtStepTrans(st, b.st, a.st);
    Named(Debug.IdDebug(f.id) + fnType + " : (" + printArgs + ") " + ret + " {\n" + body + "}\n", a.st)
  }

  /** `FnDecl::named_unparse`: the name is declared at the entry depth, the body one level
      deeper, and that level is removed afterwards; the depth ends where it started. */
  function FnDeclNamed(st: NameState, f: FnDecl): (r: Named)
    ensures r.st.scope == st.scope && r.st.classes == st.classes && Reports(st, r.st)
    ensures SameBelow(st.table, r.st.table, st.scope) && Kept(st.table, r.st.table, st.scope)
    ensures forall k :: k in r.st.table ==> k.scope != st.scope + 1
  {
    var p := ProcessFn(st, f.args, f.ret);
    var st2 := AddEntrySpec(p.st, Debug.IdDebug(f.id), p.kind);
    var g := FnStringNamed(Inner(st2), f);
    FnDeclSteps(st, p.st, st2, g.st);
    Named(g.text, CloseScope(g.st))
  }

  /** The steps of a function declaration compose: `process_fn` below the entry depth, the
      name at it, the body one level deeper, then that level removed. */
  lemma FnDeclSteps(st: NameState, p: NameState, st2: NameState, g: NameState)
    requires p.scope == st.scope && p.classes == st.classes && Reports(st, p) && SameBelow(st.table, p.table, st.scope + 1)
    requires st2.scope == p.scope && st2.classes == p.classes && Reports(p, st2)
    requires forall k :: k in p.table ==> k in st2.table && st2.table[k] == p.table[k]
    requires forall k :: k in st2.table ==> k in p.table || k.scope == st.scope
    requires g.scope == st.scope + 1 && g.classes == st2.classes && Reports(st2, g) && SameBelow(st2.table, g.table, st.scope + 1)
    ensures var r := CloseScope(g);
      r.scope == st.scope && r.classes == st.classes && Reports(st, r)
      && SameBelow(st.table, r.table, st.scope) && Kept(st.table, r.table, st.scope)
      && forall k :: k in r.table ==> k.scope != st.scope + 1
  {
  }

  /** A function name free at the entry depth is registered there, as its symbol. */
  lemma FnDeclRegistersName(st: NameState, f: FnDecl)
    ensures var key := SymbolKey(f.id.name, st.scope); var r := FnDeclNamed(st, f).st;
      key !in st.table ==> key in r.table && r.table[key] == Function(ArgsAdd([], f.args), f.ret)
  {
    var key := SymbolKey(f.id.name, st.scope);
    var p := ProcessFn(st, f.args, f.ret);
    var st2 := AddEntrySpec(p.st, f.id.name, p.kind);
    var g := FnStringNamed(Inner(st2), f);
    if key !in st.table {
      assert key in st2.table && st2.table[key] == p.kind;
      assert key in g.st.table && g.st.table[key] == st2.table[key];
    }
  }

  /** A function of one formal whose body hands that formal over: the body finds the
      formal (left by `process_fn` one level deeper), and rendering the formals afterwards
      declares it a second time, so the only diagnostic is one MultipleDecl. */
  lemma FormalSeenThenRedeclared(st: NameState, f: FnDecl, x: Id, t: Type)
    requires f.args == [FormalDecl.FormalDecl(x, t)] && !IsVoid(Variable(t))
    requires f.body == [Stmt.Line(LineStmt.Give(Exp.Loc(Loc.Id(x))))]
    requires SymbolKey(x.name, st.scope + 1) !in st.table
    requires SymbolKey(f.id.name, st.scope) !in st.table
    ensures FnDeclNamed(st, f).st.errors == st.errors + [Names.MultipleDecl]
  {
    var p := ProcessFn(st, f.args, f.ret);
    var st2 := AddEntrySpec(p.st, Debug.IdDebug(f.id), p.kind);
    FormalBeforeBody(st, f, x, t);
    BodyThenFormal(Inner(st2), f, x, t);
    assert FnDeclNamed(st, f).st == CloseScope(FnStringNamed(Inner(st2), f).st);
  }

  /** `process_fn` leaves the single formal one level deeper, without a diagnostic, and the
      function's own name adds none. */
  lemma FormalBeforeBody(st: NameState, f: FnDecl, x: Id, t: Type)
    requires f.args == [FormalDecl.FormalDecl(x, t)] && !IsVoid(Variable(t))
    requires SymbolKey(x.name, st.scope + 1) !in st.table
    requires SymbolKey(f.id.name, st.scope) !in st.table
    ensures var p := ProcessFn(st, f.args, f.ret); var st2 := AddEntrySpec(p.st, Debug.IdDebug(f.id), p.kind);
      st2.errors == st.errors && st2.scope == st.scope && SymbolKey(x.name, st.scope + 1) in st2.table
  {
    var key := SymbolKey(x.name, st.scope + 1);
    assert f.args[1..] == [];
    var p := ProcessFn(st, f.args, f.ret);
    var a1 := AddEntrySpec(Inner(st), x.name, Variable(t));
    assert AddFormals(Inner(st), f.args) == AddFormals(a1, []);
    assert key in p.st.table && p.st.errors == st.errors;
  }

  /** A body that only hands the formal over finds it; rendering the formal afterwards
      declares it a second time. */
  lemma BodyThenFormal(st: NameState, f: FnDecl, x: Id, t: Type)
    requires f.args == [FormalDecl.FormalDecl(x, t)] && !IsVoid(Variable(t))
    requires f.body == [Stmt.Line(LineStmt.Give(Exp.Loc(Loc.Id(x))))]
    requires SymbolKey(x.name, st.scope) in st.table
    ensures FnStringNamed(st, f).st.errors == st.errors + [Names.MultipleDecl]
  {
    assert f.args[1..] == [] && f.body[1..] == [];
    var line := StmtNamed(st, f.body[0]);
    assert Lookup(st, x.name).Some?;
    assert line.st == st;
    var b := StmtsNamed(st, f.body);
    assert b.st == StmtsNamed(line.st, []).st;
    var fs := FormalsNamed(b.st, f.args);
    assert fs.st == AddFormals(st, f.args);
    assert AddFormals(st, f.args) == AddFormals(AddEntrySpec(st, x.name, Variable(t)), []);
  }

  // ---------------------------------------------------------------- classes and programs

  /** Every field registered in `a` is still registered in `b`. */
  ghost predicate ClassesGrow(a: map<string, map<string, SymbolKind>>, b: map<string, map<string, SymbolKind>>) {
    forall c :: c in a ==> c in b && a[c].Keys <= b[c].Keys
  }

  /** The name a variable or method member is registered under. */
  function MemberName(d: Decl): string
    requires !d.ClassDecl?
  {
    if d.VarDecl? then d.varDecl.id.name else d.fnDecl.id.name
  }

  /** One member of a class: a variable becomes a class entry; a method runs `process_fn`,
      becomes a class entry and is rendered at the class's own depth, which is never
      raised; a nested class is skipped. */
  function MemberNamed(st: NameState, classId: string, d: Decl): (r: NamedSeq)
    ensures r.st.scope == st.scope
    ensures SameBelow(st.table, r.st.table, st.scope) && Reports(st, r.st)
    ensures ClassesGrow(st.classes, r.st.classes)
    ensures !d.ClassDecl? ==> classId in r.st.classes && MemberName(d) in r.st.classes[classId] && |r.texts| == 1
    ensures d.ClassDecl? ==> r == NamedSeq([], st)
  {
    match d
    case VarDecl(x) =>
      NamedSeq([VarDeclString(x)], AddClassEntrySpec(st, classId, Debug.IdDebug(x.id), Variable(x.varType)))
    case FnDecl(x) =>
      var p := ProcessFn(st, x.args, x.ret);
      var st2 := AddClassEntrySpec(p.st, classId, Debug.IdDebug(x.id), p.kind);
      var g := FnStringNamed(st2, x);
      MethodMemberStep(st, p.st, st2, g.st, classId, Debug.IdDebug(x.id));
      NamedSeq([g.text], g.st)
    case ClassDecl(_) => NamedSeq([], st)
  }

  /** The three steps of a method member compose: `process_fn`, the class entry, then the
      body at the same depth. */
  lemma MethodMemberStep(st: NameState, p: NameState, st2: NameState, g: NameState, classId: string, name: string)
    requires p.scope == st.scope && p.classes == st.classes && Reports(st, p) && SameBelow(st.table, p.table, st.scope + 1)
    requires st2.scope == p.scope && st2.table == p.table && classId in st2.classes && name in st2.classes[classId]
    requires st2.classes.Keys == p.classes.Keys + {classId}
    requires forall c :: c in p.classes && c != classId ==> st2.classes[c] == p.classes[c]
    requires classId in p.classes ==> p.classes[classId].Keys <= st2.classes[classId].Keys
    requires Reports(p, st2) && StmtStep(st2, g)
    ensures g.scope == st.scope && SameBelow(st.table, g.table, st.scope) && Reports(st, g)
    ensures ClassesGrow(st.classes, g.classes) && classId in g.classes && name in g.classes[classId]
  {
  }

  /** The member loop of `ClassDecl::named_unparse`. */
  function MembersNamed(st: NameState, classId: string, ds: seq<Decl>): (r: NamedSeq)
    ensures r.st.scope == st.scope
    ensures SameBelow(st.table, r.st.table, st.scope) && Reports(st, r.st)
    ensures ClassesGrow(st.classes, r.st.classes)
    ensures forall i :: 0 <= i < |ds| && !ds[i].ClassDecl? ==> classId in r.st.classes && MemberName(ds[i]) in r.st.classes[classId]
    decreases |ds|
  {
    if ds == [] then NamedSeq([], st)
    else
      var m := MemberNamed(st, classId, ds[0]);
      var rest := MembersNamed(m.st, classId, ds[1..]);
      MembersCons(st, m.st, rest.st, classId, ds);
      NamedSeq(m.texts + rest.texts, rest.st)
  }

  /** The first member's step followed by the rest's keeps what the member loop promises. */
  lemma MembersCons(st: NameState, m: NameState, r: NameState, classId: string, ds: seq<Decl>)
    requires ds != []
    requires m.scope == st.scope && SameBelow(st.table, m.table, st.scope) && Reports(st, m)
    requires ClassesGrow(st.classes, m.classes)
    requires !ds[0].ClassDecl? ==> classId in m.classes && MemberName(ds[0]) in m.classes[classId]
    requires r.scope == m.scope && SameBelow(m.table, r.table, m.scope) && Reports(m, r)
    requires ClassesGrow(m.classes, r.classes)
    requires forall i :: 0 <= i < |ds[1..]| && !ds[1..][i].ClassDecl? ==> classId in r.classes && MemberName(ds[1..][i]) in r.classes[classId]
    ensures r.scope == st.scope && SameBelow(st.table, r.table, st.scope) && Reports(st, r)
    ensures ClassesGrow(st.classes, r.classes)
    ensures forall i :: 0 <= i < |ds| && !ds[i].ClassDecl? ==> classId in r.classes && MemberName(ds[i]) in r.classes[classId]
  {
    SameBelowTrans(st.table, m.table, r.table, st.scope, m.scope);
    MembersConsListed(m, r, classId, ds);
  }

  /** The first member, listed after its own step, stays listed after the rest's. */
  lemma MembersConsListed(m: NameState, r: NameState, classId: string, ds: seq<Decl>)
    requires ds != []
    requires !ds[0].ClassDecl? ==> classId in m.classes && MemberName(ds[0]) in m.classes[classId]
    requires ClassesGrow(m.classes, r.classes)
    requires forall i :: 0 <= i < |ds[1..]| && !ds[1..][i].ClassDecl? ==> classId in r.classes && MemberName(ds[1..][i]) in r.classes[classId]
    ensures forall i :: 0 <= i < |ds| && !ds[i].ClassDecl? ==> classId in r.classes && MemberName(ds[i]) in r.classes[classId]
  {
    forall i | 0 <= i < |ds| && !ds[i].ClassDecl? ensures classId in r.classes && MemberName(ds[i]) in r.classes[classId] {
      if i > 0 {
        assert ds[i] == ds[1..][i - 1];
      }
    }
  }

  /** `ClassDecl::named_unparse`: `id{id} : class {` and the member texts joined by newlines;
      every variable and method member ends up in the class map, and the depth is kept. */
  function ClassDeclNamed(st: NameState, c: ClassDecl): (r: Named)
    ensures Debug.IdDebug(c.id) + "{" + Debug.IdDebug(c.id) + "} : class {\n" <= r.text && EndsWith(r.text, "};\n")
    ensures r.st.scope == st.scope
    ensures SameBelow(st.table, r.st.table, st.scope) && Reports(st, r.st)
    ensures forall i :: 0 <= i < |c.memberF| && !c.memberF[i].ClassDecl? ==>
              c.id.name in r.st.classes && MemberName(c.memberF[i]) in r.st.classes[c.id.name]
  {
    var m := MembersNamed(st, Debug.IdDebug(c.id), c.memberF);
    var id := Debug.IdDebug(c.id);
    Named(id + "{" + id + "} : class {\n" + Join(m.texts, "\n") + "};\n", m.st)
  }

  function DeclNamed(st: NameState, d: Decl): (r: Named)
    ensures r.st.scope == st.scope
    ensures SameBelow(st.table, r.st.table, st.scope) && Reports(st, r.st)
  {
    match d
    case VarDecl(x) => VarDeclNamed(st, x)
    case ClassDecl(x) => ClassDeclNamed(st, x)
    case FnDecl(x) => FnDeclNamed(st, x)
  }

  /** The global declarations in order; every one of them leaves the depth as it found
      it. */
  function DeclsNamed(st: NameState, ds: seq<Decl>): (r: NamedSeq)
    ensures |r.texts| == |ds|
    ensures r.st.scope == st.scope
    ensures SameBelow(st.table, r.st.table, st.scope) && Reports(st, r.st)
    decreases |ds|
  {
    if ds == [] then NamedSeq([], st)
    else
      var x := DeclNamed(st, ds[0]);
      var rest := DeclsNamed(x.st, ds[1..]);
      SameBelowTrans(st.table, x.st.table, rest.st.table, st.scope, x.st.scope);
      NamedSeq([x.text] + rest.texts, rest.st)
  }

  /** `Program::named_unparse` from a fresh unparser: the globals joined by newlines. */
  function ProgramNamed(p: Program): (r: Named)
    ensures r.st.scope == 0
  {
    var r := DeclsNamed(InitState, p.globals);
    Named(Join(r.texts, "\n"), r.st)
  }

  /** At its own depth and above, a function declaration adds its name and nothing else. */
  lemma FnDeclOnlyAddsName(st: NameState, f: FnDecl)
    ensures forall k :: k in FnDeclNamed(st, f).st.table && k.scope <= st.scope ==>
      k in st.table || k == SymbolKey(f.id.name, st.scope)
  {
    var p := ProcessFn(st, f.args, f.ret);
    var st2 := AddEntrySpec(p.st, f.id.name, p.kind);
    var g := FnStringNamed(Inner(st2), f);
    var r := FnDeclNamed(st, f).st;
    assert r == CloseScope(g.st);
    forall k | k in r.table && k.scope <= st.scope
      ensures k in st.table || k == SymbolKey(f.id.name, st.scope)
    {
      assert k in g.st.table;
      assert k in st2.table;
      if k != SymbolKey(f.id.name, st.scope) {
        assert k in p.st.table;
      }
    }
  }

  /** Two global functions both land at depth 0, and the depth is 0 again after them. */
  lemma GlobalFunctionsAtDepthZero(f: FnDecl, g: FnDecl)
    requires f.id.name != g.id.name
    ensures var r := DeclsNamed(InitState, [Decl.FnDecl(f), Decl.FnDecl(g)]).st;
      r.scope == 0 && SymbolKey(f.id.name, 0) in r.table && SymbolKey(g.id.name, 0) in r.table
  {
    DeclsPair(InitState, Decl.FnDecl(f), Decl.FnDecl(g));
    DeclOfFunction(InitState, f);
    DeclOfFunction(FnDeclNamed(InitState, f).st, g);
    TwoFunctionsRegistered(f, g);
  }

  /** A function declaration in the list is named as the function itself. */
  lemma DeclOfFunction(st: NameState, f: FnDecl)
    ensures DeclNamed(st, Decl.FnDecl(f)) == FnDeclNamed(st, f)
  {
  }

  /** Two global functions of different names, one after the other, both sit at depth 0. */
  lemma TwoFunctionsRegistered(f: FnDecl, g: FnDecl)
    requires f.id.name != g.id.name
    ensures var r := FnDeclNamed(FnDeclNamed(InitState, f).st, g).st;
      r.scope == 0 && SymbolKey(f.id.name, 0) in r.table && SymbolKey(g.id.name, 0) in r.table
  {
    var kf := SymbolKey(f.id.name, 0);
    var kg := SymbolKey(g.id.name, 0);
    var x := FnDeclNamed(InitState, f);
    FnDeclRegistersName(InitState, f);
    FnDeclOnlyAddsName(InitState, f);
    assert kf in x.st.table && kg !in x.st.table;
    var y := FnDeclNamed(x.st, g);
    FnDeclRegistersName(x.st, g);
    assert Kept(x.st.table, y.st.table, 0);
    assert kf in y.st.table && kg in y.st.table;
  }

  /** Two declarations in a row. */
  lemma DeclsPair(st: NameState, a: Decl, b: Decl)
    ensures DeclsNamed(st, [a, b]).st == DeclNamed(DeclNamed(st, a).st, b).st
  {
    var ds := [a, b];
    assert ds[0] == a && ds[1..] == [b] && ds[1..][1..] == [];
    var x := DeclNamed(st, a);
    assert DeclsNamed(x.st, ds[1..]).st == DeclsNamed(DeclNamed(x.st, b).st, []).st;
  }

  /** The body of a later global function sees an earlier one: a lookup from depth 1 falls
      back to depth 0. */
  lemma FunctionVisibleFromNextBody(f: FnDecl)
    ensures Lookup(Inner(FnDeclNamed(InitState, f).st), f.id.name) == Some(Function(ArgsAdd([], f.args), f.ret))
  {
    FnDeclRegistersName(InitState, f);
    assert SymbolKey(f.id.name, 1) !in FnDeclNamed(InitState, f).st.table;
  }

  // ---------------------------------------------------------------- the walk on the object

  method UnparseGetIdNamedString(name: string, u: NamedUnparser) returns (s: string)
    modifies u
    ensures s == GetIdNamedString(old(u.State()), name).text && u.State() == GetIdNamedString(old(u.State()), name).st
  {
    var key := SymbolKey(name, u.scope);
    var key2 := SymbolKey(name, 0);
    s := "";
    if key in u.table {
      s := name + "{" + SymbolKindText(u.table[key]) + "}";
    } else if key2 in u.table {
      s := name + "{" + SymbolKindText(u.table[key2]) + "}";
    } else {
      u.ReportError(Names.UndefinedDecl);
    }
  }

  method UnparseId(id: Id, u: NamedUnparser) returns (s: string)
    modifies u
    ensures s == IdNamed(old(u.State()), id).text && u.State() == IdNamed(old(u.State()), id).st
  {
    var key := SymbolKey(id.name, u.scope);
    var key2 := SymbolKey(id.name, 0);
    if key in u.table {
      s := id.name + "{" + SymbolKindText(u.table[key]) + "}";
    } else if key2 in u.table {
      s := id.name + "{" + SymbolKindText(u.table[key2]) + "}";
    } else {
      u.ReportError(Names.UndefinedDecl);
      s := "";
    }
  }

  method UnparseLocHelper(l: Loc, current: string, u: NamedUnparser) returns (s: string)
    modifies u
    ensures s == LocHelper(old(u.State()), l, current).text && u.State() == LocHelper(old(u.State()), l, current).st
    decreases l
  {
    match l
    case Id(x) => s := UnparseGetIdNamedString(Debug.IdDebug(x), u);
    case Loc(b, f) =>
      match b {
        case Id(_) => s := UnparseGetIdNamedString(Debug.LocDebug(b), u);
        case Loc(_, _) =>
          var next := if current == "" then Debug.IdDebug(f) else Debug.IdDebug(f) + "--" + current;
          s := UnparseLocHelper(b, next, u);
      }
  }

  method UnparseExp(e: Exp, u: NamedUnparser) returns (s: string)
    modifies u
    ensures s == ExpNamed(old(u.State()), e).text && u.State() == ExpNamed(old(u.State()), e).st
    decreases e
  {
    match e
    case True => s := "true";
    case False => s := "false";
    case Magic => s := "magic";
    case UnaryExp(x) => s := UnparseUnary(x, u);
    case BinaryExp(x) => s := UnparseBinary(x, u);
    case CallExp(x) => s := UnparseCall(x, u);
    case IntLit(n) => s := IntToString(n);
    case StrLit(t) => s := t;
    case Loc(l) => s := UnparseLocHelper(l, "", u);
  }

  method UnparseUnary(x: UnaryExp, u: NamedUnparser) returns (s: string)
    modifies u
    ensures s == UnaryNamed(old(u.State()), x).text && u.State() == UnaryNamed(old(u.State()), x).st
    decreases x
  {
    var e := UnparseExp(x.exp, u);
    match x
    case Neg(_) => s := "-" + e;
    case Not(_) => s := "!" + e;
  }

  method UnparseBinary(x: BinaryExp, u: NamedUnparser) returns (s: string)
    modifies u
    ensures s == BinaryNamed(old(u.State()), x).text && u.State() == BinaryNamed(old(u.State()), x).st
    decreases x
  {
    var l := UnparseExp(x.lhs, u);
    var r := UnparseExp(x.rhs, u);
    s := l + " " + Display.BinaryOpText(Debug.OpKind(x)) + " " + r;
  }

  method UnparseCall(x: CallExp, u: NamedUnparser) returns (s: string)
    modifies u
    ensures s == CallNamed(old(u.State()), x).text && u.State() == CallNamed(old(u.State()), x).st
    decreases x
  {
    var n := UnparseId(x.name, u);
    var a := UnparseExpVec(x.args, ", ", u);
    s := n + "(" + a + ")";
  }

  lemma ExpsUnfold(st: NameState, es: seq<Exp>, i: nat)
    requires i < |es|
    ensures ExpsNamed(st, es[i..]).texts == [ExpNamed(st, es[i]).text] + ExpsNamed(ExpNamed(st, es[i]).st, es[i + 1..]).texts
    ensures ExpsNamed(st, es[i..]).st == ExpsNamed(ExpNamed(st, es[i]).st, es[i + 1..]).st
  {
    assert es[i..][0] == es[i] && es[i..][1..] == es[i + 1..];
  }

  /** `named_unparse_vec` for expressions. */
  method UnparseExpVec(es: seq<Exp>, join: string, u: NamedUnparser) returns (s: string)
    modifies u
    ensures s == Join(ExpsNamed(old(u.State()), es).texts, join) && u.State() == ExpsNamed(old(u.State()), es).st
    decreases es
  {
    ghost var full := ExpsNamed(u.State(), es);
    var texts: seq<string> := [];
    for i := 0 to |es|
      invariant texts + ExpsNamed(u.State(), es[i..]).texts == full.texts
      invariant ExpsNamed(u.State(), es[i..]).st == full.st
    {
      ghost var pre := u.State();
      ExpsUnfold(pre, es, i);
      var x := UnparseExp(es[i], u);
      SnocRegroup(texts, x, ExpsNamed(u.State(), es[i + 1..]).texts);
      texts := texts + [x];
    }
    assert es[|es|..] == [];
    assert ExpsNamed(u.State(), es[|es|..]) == NamedSeq([], u.State());
    assert texts == full.texts;
    assert full == ExpsNamed(old(u.State()), es);
    s := Join(texts, join);
  }

  method UnparseLine(l: LineStmt, u: NamedUnparser) returns (s: string)
    modifies u
    ensures s == LineNamed(old(u.State()), l).text && u.State() == LineNamed(old(u.State()), l).st
  {
    match l
    case Assign(d, src) =>
      var x := UnparseLocHelper(d, "", u);
      var y := UnparseExp(src, u);
      s := x + " = " + y;
    case PostDec(x) => var n := UnparseLocHelper(x, "", u); s := n + "--";
    case PostInc(x) => var n := UnparseLocHelper(x, "", u); s := n + "++";
    case Give(o) => var n := UnparseExp(o, u); s := "give " + n;
    case Take(x) => var n := UnparseLocHelper(x, "", u); s := "take " + n;
    case Return(res) =>
      match res {
        case Some(x) => var n := UnparseExp(x, u); s := "return " + n;
        case None => s := "return";
      }
    case Exit => s := Display.ExitSentence;
    case Call(x) => s := UnparseCall(x, u);
  }

  method UnparseVarDecl(v: VarDecl, u: NamedUnparser) returns (s: string)
    modifies u
    ensures s == VarDeclNamed(old(u.State()), v).text && u.State() == VarDeclNamed(old(u.State()), v).st
  {
    u.AddEntry(Debug.IdDebug(v.id), Variable(v.varType));
    var t := Debug.TypeDebug(v.varType);
    match v.initVal
    case Some(x) => s := Debug.IdDebug(v.id) + "{" + t + "} : " + t + " = " + Debug.ExpDebug(x) + ";";
    case None => s := Debug.IdDebug(v.id) + "{" + t + "} : " + t + ";";
  }

  method UnparseStmt(st: Stmt, u: NamedUnparser) returns (s: string)
    modifies u
    ensures s == StmtNamed(old(u.State()), st).text && u.State() == StmtNamed(old(u.State()), st).st
    decreases st
  {
    match st
    case Block(b) => s := UnparseBlock(b, u);
    case Line(l) => var x := UnparseLine(l, u); s := x + ";";
    case VarDecl(v) => s := UnparseVarDecl(v, u);
  }

  lemma StmtsUnfold(st: NameState, ss: seq<Stmt>, i: nat)
    requires i < |ss|
    ensures StmtsNamed(st, ss[i..]).texts == [StmtNamed(st, ss[i]).text] + StmtsNamed(StmtNamed(st, ss[i]).st, ss[i + 1..]).texts
    ensures StmtsNamed(st, ss[i..]).st == StmtsNamed(StmtNamed(st, ss[i]).st, ss[i + 1..]).st
  {
    assert ss[i..][0] == ss[i] && ss[i..][1..] == ss[i + 1..];
  }

  /** `named_unparse_vec` for statements, and the body rendering of a function. */
  method UnparseStmtVec(ss: seq<Stmt>, join: string, u: NamedUnparser) returns (s: string)
    modifies u
    ensures s == Join(StmtsNamed(old(u.State()), ss).texts, join) && u.State() == StmtsNamed(old(u.State()), ss).st
    decreases ss
  {
    ghost var full := StmtsNamed(u.State(), ss);
    var texts: seq<string> := [];
    for i := 0 to |ss|
      invariant texts + StmtsNamed(u.State(), ss[i..]).texts == full.texts
      invariant StmtsNamed(u.State(), ss[i..]).st == full.st
    {
      ghost var pre := u.State();
      StmtsUnfold(pre, ss, i);
      var x := UnparseStmt(ss[i], u);
      SnocRegroup(texts, x, StmtsNamed(u.State(), ss[i + 1..]).texts);
      texts := texts + [x];
    }
    assert ss[|ss|..] == [];
    assert StmtsNamed(u.State(), ss[|ss|..]) == NamedSeq([], u.State());
    assert texts == full.texts;
    assert full == StmtsNamed(old(u.State()), ss);
    s := Join(texts, join);
  }

  method UnparseBlock(b: BlockStmt, u: NamedUnparser) returns (s: string)
    modifies u
    ensures s == BlockNamed(old(u.State()), b).text && u.State() == BlockNamed(old(u.State()), b).st
    decreases b
  {
    var c := UnparseExp(b.cond, u);
    ghost var cst := u.State();
    assert cst == ExpNamed(old(u.State()), b.cond).st;
    u.scope := u.scope + 1;
    assert u.State() == Inner(cst);
    ghost var inner: NameState;
    match b {
      case While(_, body) =>
        var x := UnparseStmtVec(body, "", u);
        inner := u.State();
        assert inner == StmtsNamed(Inner(cst), body).st;
        s := "while (" + c + ") {\n" + x + "}\n";
      case If(_, body) =>
        var x := UnparseStmtVec(body, "", u);
        inner := u.State();
        assert inner == StmtsNamed(Inner(cst), body).st;
        s := "if (" + c + ") {\n" + x + "}\n";
      case IfElse(_, tb, fb) =>
        var t := UnparseStmtVec(tb, "", u);
        var f := UnparseStmtVec(fb, "", u);
        inner := u.State();
        assert inner == StmtsNamed(StmtsNamed(Inner(cst), tb).st, fb).st;
        s := "if (" + c + ") {\n" + t + "}\nelse {\n" + f + "}\n";
    }
    assert inner.scope == cst.scope + 1;
    u.RemoveScope(u.scope);
    u.scope := u.scope - 1;
    assert u.State() == CloseScope(inner);
    assert BlockNamed(old(u.State()), b).st == CloseScope(inner);
  }

  method UnparseFormal(f: FormalDecl, u: NamedUnparser) returns (s: string)
    modifies u
    ensures s == FormalNamed(old(u.State()), f).text && u.State() == FormalNamed(old(u.State()), f).st
  {
    match f
    case VarDecl(x) => s := UnparseVarDecl(x, u);
    case FormalDecl(id, t) =>
      u.AddEntry(Debug.IdDebug(id), Variable(t));
      var tt := Debug.TypeDebug(t);
      s := Debug.IdDebug(id) + "{" + tt + "} : " + tt;
  }

  lemma FormalsUnfold(st: NameState, fs: seq<FormalDecl>, i: nat)
    requires i < |fs|
    ensures FormalsNamed(st, fs[i..]).texts == [FormalNamed(st, fs[i]).text] + FormalsNamed(FormalNamed(st, fs[i]).st, fs[i + 1..]).texts
    ensures FormalsNamed(st, fs[i..]).st == FormalsNamed(FormalNamed(st, fs[i]).st, fs[i + 1..]).st
  {
    assert fs[i..][0] == fs[i] && fs[i..][1..] == fs[i + 1..];
  }

  method UnparseFormalVec(fs: seq<FormalDecl>, u: NamedUnparser) returns (s: string)
    modifies u
    ensures s == Join(FormalsNamed(old(u.State()), fs).texts, ", ") && u.State() == FormalsNamed(old(u.State()), fs).st
  {
    ghost var full := FormalsNamed(u.State(), fs);
    var texts: seq<string> := [];
    for i := 0 to |fs|
      invariant texts + FormalsNamed(u.State(), fs[i..]).texts == full.texts
      invariant FormalsNamed(u.State(), fs[i..]).st == full.st
    {
      ghost var pre := u.State();
      FormalsUnfold(pre, fs, i);
      var x := UnparseFormal(fs[i], u);
      ghost var tail := FormalsNamed(u.State(), fs[i + 1..]).texts;
      SnocRegroup(texts, x, tail);
      texts := texts + [x];
    }
    assert fs[|fs|..] == [];
    assert FormalsNamed(u.State(), fs[|fs|..]) == NamedSeq([], u.State());
    assert texts == full.texts;
    assert full == FormalsNamed(old(u.State()), fs);
    s := Join(texts, ", ");
  }

  /** `process_fn` on the objects: one level deeper, each formal goes into a fresh argument
      map (the outcome of `add` is dropped) and into the table, then the depth is lowered. */
  method UnparseProcessFn(args: seq<FormalDecl>, ret: Type, u: NamedUnparser) returns (kind: SymbolKind)
    modifies u
    ensures kind == ProcessFn(old(u.State()), args, ret).kind && u.State() == ProcessFn(old(u.State()), args, ret).st
  {
    ghost var st0 := u.State();
    var argMap := new ArgMap();
    u.scope := u.scope + 1;
    ghost var inner := u.State();
    assert inner == Inner(st0);
    for i := 0 to |args|
      invariant ArgsAdd(argMap.entries, args[i..]) == ArgsAdd([], args)
      invariant AddFormals(u.State(), args[i..]) == AddFormals(inner, args)
      invariant u.scope == st0.scope + 1
    {
      assert args[i..][0] == args[i] && args[i..][1..] == args[i + 1..];
      var ignored := argMap.Add(args[i]);
      u.AddEntry(FormalName(args[i]), Variable(FormalType(args[i])));
    }
    assert args[|args|..] == [];
    assert u.State() == AddFormals(inner, args);
    assert argMap.entries == ArgsAdd([], args);
    u.scope := u.scope - 1;
    kind := Function(argMap.entries, ret);
    assert u.State() == ProcessFn(st0, args, ret).st;
  }

  method UnparseFnString(f: FnDecl, u: NamedUnparser) returns (s: string)
    modifies u
    ensures s == FnStringNamed(old(u.State()), f).text && u.State() == FnStringNamed(old(u.State()), f).st
  {
    var body := UnparseStmtVec(f.body, "\n", u);
    body := body + "\n";
    var printArgs := UnparseFormalVec(f.args, u);
    var ret := Debug.TypeDebug(f.ret);
    var fnType := "{(" + printArgs + ")->" + ret + "}";
    s := Debug.IdDebug(f.id) + fnType + " : (" + printArgs + ") " + ret + " {\n" + body + "}\n";
  }

  method UnparseFnDecl(f: FnDecl, u: NamedUnparser) returns (s: string)
    modifies u
    ensures s == FnDeclNamed(old(u.State()), f).text && u.State() == FnDeclNamed(old(u.State()), f).st
  {
    ghost var p := ProcessFn(u.State(), f.args, f.ret);
    var value := UnparseProcessFn(f.args, f.ret, u);
    u.AddEntry(Debug.IdDebug(f.id), value);
    ghost var st2 := u.State();
    assert st2 == AddEntrySpec(p.st, Debug.IdDebug(f.id), p.kind);
    u.scope := u.scope + 1;
    assert u.State() == Inner(st2);
    s := UnparseFnString(f, u);
    ghost var g := u.State();
    assert g == FnStringNamed(Inner(st2), f).st && g.scope == st2.scope + 1;
    u.RemoveScope(u.scope);
    ghost var removed := u.State();
    assert removed == RemoveScopeSpec(g, g.scope);
    u.scope := u.scope - 1;
    assert u.State() == removed.(scope := removed.scope - 1);
    assert u.State() == CloseScope(g);
  }

  /** One member of a class body, as `ClassDecl::named_unparse` treats it. */
  method UnparseMember(cid: string, d: Decl, u: NamedUnparser) returns (out: seq<string>)
    modifies u
    ensures out == MemberNamed(old(u.State()), cid, d).texts && u.State() == MemberNamed(old(u.State()), cid, d).st
  {
    match d
    case VarDecl(x) =>
      u.AddClassEntry(cid, Debug.IdDebug(x.id), Variable(x.varType));
      out := [VarDeclString(x)];
    case FnDecl(x) =>
      var kind := UnparseProcessFn(x.args, x.ret, u);
      u.AddClassEntry(cid, Debug.IdDebug(x.id), kind);
      var text := UnparseFnString(x, u);
      out := [text];
    case ClassDecl(_) =>
      out := [];
  }

  lemma MembersUnfold(st: NameState, classId: string, ds: seq<Decl>, i: nat)
    requires i < |ds|
    ensures var m := MemberNamed(st, classId, ds[i]);
      MembersNamed(st, classId, ds[i..]) == NamedSeq(m.texts + MembersNamed(m.st, classId, ds[i + 1..]).texts, MembersNamed(m.st, classId, ds[i + 1..]).st)
  {
    assert ds[i..][0] == ds[i] && ds[i..][1..] == ds[i + 1..];
  }

  /** The member loop of `ClassDecl::named_unparse`. */
  method UnparseMembers(cid: string, ms: seq<Decl>, u: NamedUnparser) returns (outputs: seq<string>)
    modifies u
    ensures outputs == MembersNamed(old(u.State()), cid, ms).texts && u.State() == MembersNamed(old(u.State()), cid, ms).st
  {
    ghost var full := MembersNamed(u.State(), cid, ms);
    outputs := [];
    for i := 0 to |ms|
      invariant outputs + MembersNamed(u.State(), cid, ms[i..]).texts == full.texts
      invariant MembersNamed(u.State(), cid, ms[i..]).st == full.st
    {
      ghost var pre := u.State();
      MembersUnfold(pre, cid, ms, i);
      var out := UnparseMember(cid, ms[i], u);
      AppendRegroup(outputs, out, MembersNamed(u.State(), cid, ms[i + 1..]).texts);
      outputs := outputs + out;
    }
    assert ms[|ms|..] == [];
    assert MembersNamed(u.State(), cid, ms[|ms|..]) == NamedSeq([], u.State());
    assert full == MembersNamed(old(u.State()), cid, ms);
  }

  method UnparseClassDecl(c: ClassDecl, u: NamedUnparser) returns (s: string)
    modifies u
    ensures s == ClassDeclNamed(old(u.State()), c).text && u.State() == ClassDeclNamed(old(u.State()), c).st
  {
    var fieldOutputs := UnparseMembers(Debug.IdDebug(c.id), c.memberF, u);
    var id := Debug.IdDebug(c.id);
    s := id + "{" + id + "} : class {\n" + Join(fieldOutputs, "\n") + "};\n";
  }

  method UnparseDecl(d: Decl, u: NamedUnparser) returns (s: string)
    modifies u
    ensures s == DeclNamed(old(u.State()), d).text && u.State() == DeclNamed(old(u.State()), d).st
  {
    match d
    case VarDecl(x) => s := UnparseVarDecl(x, u);
    case ClassDecl(x) => s := UnparseClassDecl(x, u);
    case FnDecl(x) => s := UnparseFnDecl(x, u);
  }

  /** `Program::named_unparse`: the globals in order, joined by newlines. */
  lemma DeclsUnfold(st: NameState, ds: seq<Decl>, i: nat)
    requires i < |ds|
    ensures DeclsNamed(st, ds[i..]).texts == [DeclNamed(st, ds[i]).text] + DeclsNamed(DeclNamed(st, ds[i]).st, ds[i + 1..]).texts
    ensures DeclsNamed(st, ds[i..]).st == DeclsNamed(DeclNamed(st, ds[i]).st, ds[i + 1..]).st
  {
    assert ds[i..][0] == ds[i] && ds[i..][1..] == ds[i + 1..];
  }

  method UnparseProgram(p: Program, u: NamedUnparser) returns (s: string)
    modifies u
    ensures s == Join(DeclsNamed(old(u.State()), p.globals).texts, "\n") && u.State() == DeclsNamed(old(u.State()), p.globals).st
  {
    var ds := p.globals;
    ghost var full := DeclsNamed(u.State(), ds);
    var texts: seq<string> := [];
    for i := 0 to |ds|
      invariant texts + DeclsNamed(u.State(), ds[i..]).texts == full.texts
      invariant DeclsNamed(u.State(), ds[i..]).st == full.st
    {
      ghost var pre := u.State();
      DeclsUnfold(pre, ds, i);
      var x := UnparseDecl(ds[i], u);
      SnocRegroup(texts, x, DeclsNamed(u.State(), ds[i + 1..]).texts);
      texts := texts + [x];
    }
    assert ds[|ds|..] == [];
    assert DeclsNamed(u.State(), ds[|ds|..]) == NamedSeq([], u.State());
    assert texts == full.texts;
    assert full == DeclsNamed(old(u.State()), p.globals);
    s := Join(texts, "\n");
  }
}
