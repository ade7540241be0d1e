/** The `find_vars` walk that fills the IR tables from the newer AST, and the
    `convert_3ac` stubs, which all produce the empty string.

    What a walk does to the tables is described by the list of table operations it
    performs, in order (`Event`): one more temporary for each unary, binary and call
    node, one pool entry for each string literal, one variable for each declaration. */
module ThreeACNode {
  import opened Wrappers
  import opened Strings
  import opened AstNew
  import opened ThreeAC

  datatype Event = Tmp | Str(text: string) | Var(name: string)

  /** One table operation in the given function context. */
  function Step(st: IrState, c: FunctionType, ev: Event): IrState {
    match ev
    case Tmp => IncFnTmpsSpec(st, c)
    case Str(s) => AddStringSpec(st, s)
    case Var(n) => AddVarSpec(st, c, n, None)
  }

  /** The operations applied in order. */
  function Apply(st: IrState, c: FunctionType, evs: seq<Event>): IrState
    decreases |evs|
  {
    if evs == [] then st else Apply(Step(st, c, evs[0]), c, evs[1..])
  }

  lemma {:induction false} ApplyConcat(st: IrState, c: FunctionType, a: seq<Event>, b: seq<Event>)
    ensures Apply(st, c, a + b) == Apply(Apply(st, c, a), c, b)
    decreases |a|
  {
    if a != [] {
      assert (a + b)[0] == a[0] && (a + b)[1..] == a[1..] + b;
      ApplyConcat(Step(st, c, a[0]), c, a[1..], b);
    } else {
      assert a + b == b;
    }
  }

  /** The operations of an expression: pre-order, left to right. */
  function ExpEvents(e: Exp): seq<Event>
    decreases e
  {
    match e.kind
    case UnaryExp(u) => UnaryEvents(u)
    case BinaryExp(b) => BinaryEvents(b)
    case CallExp(x) => CallEvents(x)
    case StrLit(s) => [Str(s)]
    case _ => []
  }

  function UnaryEvents(u: UnaryExp): seq<Event>
    decreases u
  {
    [Tmp] + ExpEvents(u.exp)
  }

  function BinaryEvents(b: BinaryExp): seq<Event>
    decreases b
  {
    [Tmp] + ExpEvents(b.lhs) + ExpEvents(b.rhs)
  }

  function CallEvents(x: CallExp): seq<Event>
    decreases x
  {
    [Tmp] + ExpsEvents(x.args)
  }

  function ExpsEvents(es: seq<Exp>): seq<Event>
    decreases es
  {
    if es == [] then [] else ExpEvents(es[0]) + ExpsEvents(es[1..])
  }

  /** A line statement visits only the expressions it evaluates: the source of an
      assignment, the output of `give`, a returned value, a call. */
  function LineEvents(l: LineStmt): seq<Event>
    decreases l
  {
    match l.kind
    case Assign(_, src) => ExpEvents(src)
    case Give(o) => ExpEvents(o)
    case Return(res) => (match res case Some(x) => ExpEvents(x) case None => [])
    case Call(x) => CallEvents(x)
    case _ => []
  }

  function StmtEvents(s: Stmt): seq<Event>
    decreases s
  {
    match s
    case Block(b) => BlockEvents(b)
    case Line(l) => LineEvents(l)
    case VarDecl(v) => [Var(v.id.name)]
  }

  /** A block visits its condition, then every statement of its body (both branches of
      an `if`/`else`), all in the same function context. */
  function BlockEvents(b: BlockStmt): seq<Event>
    decreases b
  {
    match b
    case While(c, body) => ExpEvents(c) + StmtsEvents(body)
    case If(c, body) => ExpEvents(c) + StmtsEvents(body)
    case IfElse(c, t, f) => ExpEvents(c) + StmtsEvents(t) + StmtsEvents(f)
  }

  function StmtsEvents(ss: seq<Stmt>): seq<Event>
    decreases ss
  {
    if ss == [] then [] else StmtEvents(ss[0]) + StmtsEvents(ss[1..])
  }

  /** The string payloads of the pool operations, in order. */
  function Strs(evs: seq<Event>): seq<string> {
    if evs == [] then [] else (if evs[0].Str? then [evs[0].text] else []) + Strs(evs[1..])
  }

  /** The number of temporaries requested. */
  function CountTmps(evs: seq<Event>): nat {
    if evs == [] then 0 else (if evs[0].Tmp? then 1 else 0) + CountTmps(evs[1..])
  }

  /** The string counter advances once per string literal visited. */
  lemma {:induction false} ApplyNumStr(st: IrState, c: FunctionType, evs: seq<Event>)
    ensures Apply(st, c, evs).numStr == st.numStr + |Strs(evs)|
    decreases |evs|
  {
    if evs != [] {
      ApplyNumStr(Step(st, c, evs[0]), c, evs[1..]);
    }
  }

  /** The literals `lits` are stored, in order, under `str<n>`, `str<n+1>`, ... */
  predicate Pooled(globals: map<string, Option<string>>, n: nat, lits: seq<string>) {
    forall j :: n <= j < n + |lits| ==> StrKey(j) in globals && globals[StrKey(j)] == Some(lits[j - n])
  }

  /** Inside a function, the k-th string literal visited is stored under `str<n+k>`, n
      being the counter before the walk. */
  lemma {:induction false} ApplyStringPool(st: IrState, id: string, evs: seq<Event>)
    ensures Pooled(Apply(st, Local(id), evs).globals, st.numStr, Strs(evs))
    decreases |evs|, 1
  {
    if evs != [] {
      var rest := evs[1..];
      var st1 := Step(st, Local(id), evs[0]);
      assert Apply(st, Local(id), evs) == Apply(st1, Local(id), rest);
      if evs[0].Str? {
        assert st1 == AddStringSpec(st, evs[0].text);
        StringPoolStep(st, id, evs[0].text, rest);
        assert Strs(evs) == [evs[0].text] + Strs(rest);
      } else {
        assert st1.numStr == st.numStr;
        ApplyStringPool(st1, id, rest);
        assert Strs(evs) == Strs(rest);
      }
    }
  }

  /** The key of the n-th string is not the key of any later one. */
  lemma LaterKeysDiffer(n: nat, m: nat)
    ensures forall j :: n + 1 <= j < n + 1 + m ==> StrKey(j) != StrKey(n)
  {
    forall j | n + 1 <= j < n + 1 + m ensures StrKey(j) != StrKey(n) {
      if StrKey(j) == StrKey(n) {
        StrKeyInjective(j, n);
      }
    }
  }

  /** A literal stored under `str<n>` in front of a pool that starts at `n + 1`. */
  lemma PooledCons(globals: map<string, Option<string>>, n: nat, s: string, lits: seq<string>)
    requires StrKey(n) in globals && globals[StrKey(n)] == Some(s)
    requires Pooled(globals, n + 1, lits)
    ensures Pooled(globals, n, [s] + lits)
  {
    var all := [s] + lits;
    forall j | n <= j < n + |all|
      ensures StrKey(j) in globals && globals[StrKey(j)] == Some(all[j - n])
    {
      if j > n {
        assert all[j - n] == lits[j - (n + 1)];
      }
    }
  }

  /** The inductive step of `ApplyStringPool` for a string literal. */
  lemma {:induction false} StringPoolStep(st: IrState, id: string, s: string, rest: seq<Event>)
    ensures Pooled(Apply(AddStringSpec(st, s), Local(id), rest).globals, st.numStr, [s] + Strs(rest))
    decreases |rest| + 1, 0
  {
    var st1 := AddStringSpec(st, s);
    var n := st.numStr;
    var r := Apply(st1, Local(id), rest);
    assert st1.numStr == n + 1 && st1.globals[StrKey(n)] == Some(s);
    ApplyStringPool(st1, id, rest);
    assert Pooled(r.globals, n + 1, Strs(rest));
    LaterKeysDiffer(n, |Strs(rest)|);
    PoolKeepsUntouched(st1, id, rest, StrKey(n));
    PooledCons(r.globals, n, s, Strs(rest));
  }

  /** Inside a function, the only global names a walk adds are the keys of its string
      literals. */
  lemma {:induction false} ApplyStringPoolOnly(st: IrState, id: string, evs: seq<Event>)
    ensures var r := Apply(st, Local(id), evs); var n := st.numStr;
      forall g :: g in r.globals && g !in st.globals ==> exists j :: n <= j < n + |Strs(evs)| && g == StrKey(j)
    decreases |evs|
  {
    if evs != [] {
      var st1 := Step(st, Local(id), evs[0]);
      var rest := evs[1..];
      ApplyStringPoolOnly(st1, id, rest);
      var r := Apply(st, Local(id), evs);
      assert r == Apply(st1, Local(id), rest);
      var n := st.numStr;
      if evs[0].Str? {
        assert Strs(evs) == [evs[0].text] + Strs(rest);
        assert st1.numStr == n + 1;
        forall g | g in r.globals && g !in st.globals
          ensures exists j :: n <= j < n + |Strs(evs)| && g == StrKey(j)
        {
          if g != StrKey(n) {
            var j :| n + 1 <= j < n + 1 + |Strs(rest)| && g == StrKey(j);
          }
        }
      } else {
        assert Strs(evs) == Strs(rest);
      }
    }
  }

  /** A global entry whose key no later string takes keeps its value. */
  lemma {:induction false} PoolKeepsUntouched(st: IrState, id: string, evs: seq<Event>, g: string)
    requires g in st.globals
    requires forall j :: st.numStr <= j < st.numStr + |Strs(evs)| ==> StrKey(j) != g
    ensures var r := Apply(st, Local(id), evs); g in r.globals && r.globals[g] == st.globals[g]
    decreases |evs|
  {
    if evs != [] {
      var st1 := Step(st, Local(id), evs[0]);
      var rest := evs[1..];
      if evs[0].Str? {
        assert Strs(evs) == [evs[0].text] + Strs(rest);
      } else {
        assert Strs(evs) == Strs(rest);
      }
      PoolKeepsUntouched(st1, id, rest, g);
    }
  }

  /** Inside a function, its temporary count grows by exactly the number of unary, binary
      and call nodes visited, and every other function's record is left as it was. */
  lemma {:induction false} ApplyTmps(st: IrState, id: string, evs: seq<Event>)
    ensures var r := Apply(st, Local(id), evs);
      TmpsOf(r, id) == TmpsOf(st, id) + CountTmps(evs)
      && (forall f :: f in st.functions && f != id ==> f in r.functions && r.functions[f] == st.functions[f])
      && r.functions.Keys <= st.functions.Keys + {id}
    decreases |evs|
  {
    if evs != [] {
      var st1 := Step(st, Local(id), evs[0]);
      ApplyTmps(st1, id, evs[1..]);
    }
  }

  /** At global scope the temporaries are not counted anywhere and the function records
      only gain or keep entries through declarations, which go to the globals. */
  lemma {:induction false} ApplyGlobalScope(st: IrState, evs: seq<Event>)
    ensures Apply(st, Global, evs).functions == st.functions
    decreases |evs|
  {
    if evs != [] {
      ApplyGlobalScope(Step(st, Global, evs[0]), evs[1..]);
    }
  }

  /** `find_vars` for an expression (the `Exp` and `ExpKind` impls). */
  method FindVarsExp(e: Exp, c: FunctionType, vars: IntermediateRepresentation)
    modifies vars
    ensures vars.State() == Apply(old(vars.State()), c, ExpEvents(e))
    decreases e
  {
    match e.kind
    case UnaryExp(u) => FindVarsUnary(u, c, vars);
    case BinaryExp(b) => FindVarsBinary(b, c, vars);
    case CallExp(x) => FindVarsCall(x, c, vars);
    case StrLit(s) => vars.AddString(s);
    case _ =>
  }

  method FindVarsUnary(u: UnaryExp, c: FunctionType, vars: IntermediateRepresentation)
    modifies vars
    ensures vars.State() == Apply(old(vars.State()), c, UnaryEvents(u))
    decreases u
  {
    vars.IncFnTmps(c);
    FindVarsExp(u.exp, c, vars);
    ApplyConcat(old(vars.State()), c, [Tmp], ExpEvents(u.exp));
  }

  method FindVarsBinary(b: BinaryExp, c: FunctionType, vars: IntermediateRepresentation)
    modifies vars
    ensures vars.State() == Apply(old(vars.State()), c, BinaryEvents(b))
    decreases b
  {
    vars.IncFnTmps(c);
    FindVarsExp(b.lhs, c, vars);
    FindVarsExp(b.rhs, c, vars);
    ApplyConcat(old(vars.State()), c, [Tmp], ExpEvents(b.lhs));
    ApplyConcat(old(vars.State()), c, [Tmp] + ExpEvents(b.lhs), ExpEvents(b.rhs));
  }

  method FindVarsCall(x: CallExp, c: FunctionType, vars: IntermediateRepresentation)
    modifies vars
    ensures vars.State() == Apply(old(vars.State()), c, CallEvents(x))
    decreases x
  {
    vars.IncFnTmps(c);
    ghost var st1 := vars.State();
    for i := 0 to |x.args|
      invariant Apply(vars.State(), c, ExpsEvents(x.args[i..])) == Apply(st1, c, ExpsEvents(x.args))
    {
      assert x.args[i..][0] == x.args[i] && x.args[i..][1..] == x.args[i + 1..];
      ghost var before := vars.State();
      ApplyConcat(before, c, ExpEvents(x.args[i]), ExpsEvents(x.args[i + 1..]));
      FindVarsExp(x.args[i], c, vars);
    }
    assert x.args[|x.args|..] == [];
    ApplyConcat(old(vars.State()), c, [Tmp], ExpsEvents(x.args));
  }

  /** `find_vars` for a line statement (the `LineStmt` and `LineStmtKind` impls). */
  method FindVarsLine(l: LineStmt, c: FunctionType, vars: IntermediateRepresentation)
    modifies vars
    ensures vars.State() == Apply(old(vars.State()), c, LineEvents(l))
    decreases l
  {
    match l.kind
    case Assign(_, src) => FindVarsExp(src, c, vars);
    case Give(o) => FindVarsExp(o, c, vars);
    case Return(res) =>
      match res {
        case Some(x) => FindVarsExp(x, c, vars);
        case None =>
      }
    case Call(x) => FindVarsCall(x, c, vars);
    case _ =>
  }

  method FindVarsVarDecl(v: VarDecl, c: FunctionType, vars: IntermediateRepresentation)
    modifies vars
    ensures vars.State() == AddVarSpec(old(vars.State()), c, v.id.name, None)
  {
    vars.AddVar(c, v.id.name, None);
  }

  /** `find_vars` for a formal argument; `FnDecl` never calls it. */
  method FindVarsFormal(f: FormalDecl, c: FunctionType, vars: IntermediateRepresentation)
    modifies vars
    ensures vars.State() == AddVarSpec(old(vars.State()), c, (match f case VarDecl(v) => v.id.name case FormalDecl(id, _) => id.name), None)
  {
    match f
    case VarDecl(v) => FindVarsVarDecl(v, c, vars);
    case FormalDecl(id, _) => vars.AddVar(c, id.name, None);
  }

  method FindVarsStmt(s: Stmt, c: FunctionType, vars: IntermediateRepresentation)
    modifies vars
    ensures vars.State() == Apply(old(vars.State()), c, StmtEvents(s))
    decreases s
  {
    match s
    case Block(b) => FindVarsBlock(b, c, vars);
    case Line(l) => FindVarsLine(l, c, vars);
    case VarDecl(v) => FindVarsVarDecl(v, c, vars);
  }

  /** The `for stmt in body` loops. */
  method FindVarsStmts(ss: seq<Stmt>, c: FunctionType, vars: IntermediateRepresentation)
    modifies vars
    ensures vars.State() == Apply(old(vars.State()), c, StmtsEvents(ss))
    decreases ss
  {
    for i := 0 to |ss|
      invariant Apply(vars.State(), c, StmtsEvents(ss[i..])) == Apply(old(vars.State()), c, StmtsEvents(ss))
    {
      assert ss[i..][0] == ss[i] && ss[i..][1..] == ss[i + 1..];
      ApplyConcat(vars.State(), c, StmtEvents(ss[i]), StmtsEvents(ss[i + 1..]));
      FindVarsStmt(ss[i], c, vars);
    }
    assert ss[|ss|..] == [];
  }

  method FindVarsBlock(b: BlockStmt, c: FunctionType, vars: IntermediateRepresentation)
    modifies vars
    ensures vars.State() == Apply(old(vars.State()), c, BlockEvents(b))
    decreases b
  {
    match b
    case While(cond, body) =>
      FindVarsExp(cond, c, vars);
      FindVarsStmts(body, c, vars);
      ApplyConcat(old(vars.State()), c, ExpEvents(cond), StmtsEvents(body));
    case If(cond, body) =>
      FindVarsExp(cond, c, vars);
      FindVarsStmts(body, c, vars);
      ApplyConcat(old(vars.State()), c, ExpEvents(cond), StmtsEvents(body));
    case IfElse(cond, t, f) =>
      FindVarsExp(cond, c, vars);
      FindVarsStmts(t, c, vars);
      FindVarsStmts(f, c, vars);
      ApplyConcat(old(vars.State()), c, ExpEvents(cond), StmtsEvents(t));
      ApplyConcat(old(vars.State()), c, ExpEvents(cond) + StmtsEvents(t), StmtsEvents(f));
  }

  /** What `FnDecl::find_vars` does: the function's name becomes a global without an
      initial value, then the body (and not the formals) is walked inside the function. */
  function FnDeclSpec(st: IrState, f: FnDecl): IrState {
    Apply(AddVarSpec(st, Global, f.id.name, None), Local(f.id.name), StmtsEvents(f.body))
  }

  method FindVarsFnDecl(f: FnDecl, vars: IntermediateRepresentation)
    modifies vars
    ensures vars.State() == FnDeclSpec(old(vars.State()), f)
  {
    vars.AddVar(Global, f.id.name, None);
    FindVarsStmts(f.body, Local(f.id.name), vars);
  }

  /** A function declaration leaves its name among the globals, counts one temporary per
      unary, binary and call node of its body, and pools its string literals in order. */
  lemma FnDeclEffect(st: IrState, f: FnDecl)
    ensures var r := FnDeclSpec(st, f); var evs := StmtsEvents(f.body); var name := f.id.name;
      name in r.globals
      && TmpsOf(r, name) == TmpsOf(st, name) + CountTmps(evs)
      && r.numStr == st.numStr + |Strs(evs)|
      && forall j :: st.numStr <= j < r.numStr ==> StrKey(j) in r.globals && r.globals[StrKey(j)] == Some(Strs(evs)[j - st.numStr])
  {
    var st1 := AddVarSpec(st, Global, f.id.name, None);
    var evs := StmtsEvents(f.body);
    ApplyKeepsGlobals(st1, Local(f.id.name), evs);
    ApplyStringPool(st1, f.id.name, evs);
    ApplyTmps(st1, f.id.name, evs);
    ApplyNumStr(st1, Local(f.id.name), evs);
  }

  /** As written, a function's first declared local is lost when no temporary came
      before it: `add_var` only creates the record. */
  lemma FirstLocalDropped(st: IrState, f: FnDecl, a: VarDecl, b: VarDecl)
    requires f.body == [Stmt.VarDecl(a), Stmt.VarDecl(b)] && f.id.name !in st.functions
    ensures var r := FnDeclSpec(st, f); f.id.name in r.functions && r.functions[f.id.name].locals == [b.id.name]
  {
    var body := f.body;
    assert body[1..] == [Stmt.VarDecl(b)] && body[1..][1..] == [];
    assert StmtsEvents(body[1..][1..]) == [];
    assert StmtsEvents(body[1..]) == [Var(b.id.name)];
    assert StmtEvents(body[0]) == [Var(a.id.name)];
    var evs := StmtsEvents(body);
    assert evs == [Var(a.id.name), Var(b.id.name)];
    var st1 := AddVarSpec(st, Global, f.id.name, None);
    var st2 := Step(st1, Local(f.id.name), evs[0]);
    assert st2.functions[f.id.name] == NewFunctionValue;
    assert evs[1..] == [Var(b.id.name)] && evs[1..][1..] == [];
    assert Apply(st2, Local(f.id.name), evs[1..]) == Step(st2, Local(f.id.name), Var(b.id.name));
  }

  /** `Decl::find_vars`: variables and functions are walked, classes are skipped. */
  function DeclSpec(st: IrState, c: FunctionType, d: Decl): IrState {
    match d
    case VarDecl(v) => AddVarSpec(st, c, v.id.name, None)
    case FnDecl(f) => FnDeclSpec(st, f)
    case ClassDecl(_) => st
  }

  function DeclsSpec(st: IrState, c: FunctionType, ds: seq<Decl>): IrState
    decreases |ds|
  {
    if ds == [] then st else DeclsSpec(DeclSpec(st, c, ds[0]), c, ds[1..])
  }

  method FindVarsDecl(d: Decl, c: FunctionType, vars: IntermediateRepresentation)
    modifies vars
    ensures vars.State() == DeclSpec(old(vars.State()), c, d)
  {
    match d
    case VarDecl(v) => FindVarsVarDecl(v, c, vars);
    case FnDecl(f) => FindVarsFnDecl(f, vars);
    case ClassDecl(_) =>
  }

  /** `Program::find_vars`: every global declaration in order. */
  method FindVarsProgram(p: Program, c: FunctionType, vars: IntermediateRepresentation)
    modifies vars
    ensures vars.State() == DeclsSpec(old(vars.State()), c, p.globals)
  {
    for i := 0 to |p.globals|
      invariant DeclsSpec(vars.State(), c, p.globals[i..]) == DeclsSpec(old(vars.State()), c, p.globals)
    {
      assert p.globals[i..][0] == p.globals[i] && p.globals[i..][1..] == p.globals[i + 1..];
      FindVarsDecl(p.globals[i], c, vars);
    }
    assert p.globals[|p.globals|..] == [];
  }

  /** The name a variable or function declaration registers. */
  function DeclName(d: Decl): string
    requires !d.ClassDecl?
  {
    match d
    case VarDecl(v) => v.id.name
    case FnDecl(f) => f.id.name
  }

  /** No walk removes a global name. */
  lemma {:induction false} ApplyKeepsGlobals(st: IrState, c: FunctionType, evs: seq<Event>)
    ensures st.globals.Keys <= Apply(st, c, evs).globals.Keys
    decreases |evs|
  {
    if evs != [] {
      ApplyKeepsGlobals(Step(st, c, evs[0]), c, evs[1..]);
    }
  }

  lemma {:induction false} DeclsKeepGlobals(st: IrState, ds: seq<Decl>)
    ensures st.globals.Keys <= DeclsSpec(st, Global, ds).globals.Keys
    decreases |ds|
  {
    if ds != [] {
      var st1 := DeclSpec(st, Global, ds[0]);
      if ds[0].FnDecl? {
        var f := ds[0].fnDecl;
        ApplyKeepsGlobals(AddVarSpec(st, Global, f.id.name, None), Local(f.id.name), StmtsEvents(f.body));
      }
      DeclsKeepGlobals(st1, ds[1..]);
    }
  }

  /** After the walk of a program at global scope, every top-level variable and function
      name is a global. */
  lemma {:induction false} ProgramRegistersGlobals(st: IrState, ds: seq<Decl>)
    ensures var r := DeclsSpec(st, Global, ds);
      forall i :: 0 <= i < |ds| && !ds[i].ClassDecl? ==> DeclName(ds[i]) in r.globals
    decreases |ds|
  {
    if ds != [] {
      var st1 := DeclSpec(st, Global, ds[0]);
      ProgramRegistersGlobals(st1, ds[1..]);
      DeclsKeepGlobals(st1, ds[1..]);
      if ds[0].FnDecl? {
        FnDeclEffect(st, ds[0].fnDecl);
      }
      forall i | 1 <= i < |ds| && !ds[i].ClassDecl? ensures DeclName(ds[i]) in DeclsSpec(st, Global, ds).globals {
        assert ds[1..][i - 1] == ds[i];
      }
    }
  }

  /** `convert_3ac` in src/assembly/three_ac.rs: fresh tables, then the walk at global
      scope. The tables are returned so that their contents can be stated. */
  method Convert3AC(p: Program) returns (vars: IntermediateRepresentation)
    ensures fresh(vars)
    ensures vars.State() == DeclsSpec(EmptyIr, Global, p.globals)
  {
    vars := new IntermediateRepresentation();
    FindVarsProgram(p, Global, vars);
  }

  /** `Program::convert_3ac`: every declaration converts to `""` and the results are
      joined with newlines. */
  function ProgramConvert3AC(p: Program): string {
    Join(seq(|p.globals|, i => ""), "\n")
  }

  /** The program's conversion is one newline fewer than it has declarations, or empty. */
  lemma {:induction false} ProgramConvert3ACNewlines(p: Program)
    ensures var r := ProgramConvert3AC(p);
      |r| == (if |p.globals| == 0 then 0 else |p.globals| - 1) && forall i :: 0 <= i < |r| ==> r[i] == '\n'
  {
    EmptiesJoin(|p.globals|);
  }

  lemma {:induction false} EmptiesJoin(n: nat)
    ensures var r := Join(seq(n, i => ""), "\n");
      |r| == (if n == 0 then 0 else n - 1) && forall i :: 0 <= i < |r| ==> r[i] == '\n'
  {
    if n > 1 {
      EmptiesJoin(n - 1);
      var parts := seq(n, i => "");
      assert parts[1..] == seq(n - 1, i => "");
      assert Join(parts, "\n") == "" + "\n" + Join(parts[1..], "\n");
    } else if n == 1 {
      assert seq(1, i => "") == [""];
    }
  }
}
