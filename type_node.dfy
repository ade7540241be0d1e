/** The `TypeAnalysisNode` dispatch of src/analysis/_type/type_node.rs and its driver
    `type_error_check`: global declarations in order, variables skipped. */
module TypeNode {
  import opened Wrappers
  import opened AstNew
  import opened TypeAnalysis

  /** What one global declaration does to the tables. */
  function DeclSpec(st: TypeTables, d: Decl): TypeTables {
    match d
    case VarDecl(_) => st
    case ClassDecl(c) => AddClassSpec(st, c)
    case FnDecl(f) => AddFnSpec(st, f)
  }

  function DeclsSpec(st: TypeTables, ds: seq<Decl>): TypeTables
    decreases |ds|
  {
    if ds == [] then st else DeclsSpec(DeclSpec(st, ds[0]), ds[1..])
  }

  method AnalyzeFnDecl(f: FnDecl, analyzer: TypeAnalyzer)
    modifies analyzer
    ensures analyzer.Tables() == AddFnSpec(old(analyzer.Tables()), f)
    ensures analyzer.error == old(analyzer.error) && analyzer.errors == old(analyzer.errors)
  {
    analyzer.AddFn(f);
  }

  method AnalyzeClassDecl(c: ClassDecl, analyzer: TypeAnalyzer)
    modifies analyzer
    ensures analyzer.Tables() == AddClassSpec(old(analyzer.Tables()), c)
    ensures analyzer.error == old(analyzer.error) && analyzer.errors == old(analyzer.errors)
  {
    analyzer.AddClass(c);
  }

  method AnalyzeDecl(d: Decl, analyzer: TypeAnalyzer)
    modifies analyzer
    ensures analyzer.Tables() == DeclSpec(old(analyzer.Tables()), d)
    ensures analyzer.error == old(analyzer.error) && analyzer.errors == old(analyzer.errors)
  {
    match d
    case VarDecl(_) =>
    case ClassDecl(c) => AnalyzeClassDecl(c, analyzer);
    case FnDecl(f) => AnalyzeFnDecl(f, analyzer);
  }

  /** `Program::analyze_type`: every global declaration, in order. */
  method AnalyzeProgram(p: Program, analyzer: TypeAnalyzer)
    modifies analyzer
    ensures analyzer.Tables() == DeclsSpec(old(analyzer.Tables()), p.globals)
    ensures analyzer.error == old(analyzer.error) && analyzer.errors == old(analyzer.errors)
  {
    for i := 0 to |p.globals|
      invariant DeclsSpec(analyzer.Tables(), p.globals[i..]) == DeclsSpec(old(analyzer.Tables()), p.globals)
      invariant analyzer.error == old(analyzer.error) && analyzer.errors == old(analyzer.errors)
    {
      assert p.globals[i..][0] == p.globals[i] && p.globals[i..][1..] == p.globals[i + 1..];
      AnalyzeDecl(p.globals[i], analyzer);
    }
    assert p.globals[|p.globals|..] == [];
  }

  /** `type_error_check`: fresh tables, the program analysed, and `Ok` whatever the error
      flag says. The analyzer is returned so that its tables can be stated. */
  method TypeErrorCheck(p: Program) returns (r: Result<(), ()>, analyzer: TypeAnalyzer)
    ensures fresh(analyzer)
    ensures analyzer.Tables() == DeclsSpec(EmptyTables, p.globals)
    ensures r == Ok(())
  {
    analyzer := new TypeAnalyzer();
    AnalyzeProgram(p, analyzer);
    r := Ok(());
  }

  /** No declaration removes a registered function or class. */
  lemma DeclKeeps(st: TypeTables, d: Decl)
    ensures st.functions.Keys <= DeclSpec(st, d).functions.Keys
    ensures st.classes.Keys <= DeclSpec(st, d).classes.Keys
  {
    if d.ClassDecl? {
      ClassMethodsKeys(st.functions, d.classDecl.id.name, d.classDecl.memberF);
    }
  }

  lemma {:induction false} DeclsKeep(st: TypeTables, ds: seq<Decl>)
    ensures st.functions.Keys <= DeclsSpec(st, ds).functions.Keys
    ensures st.classes.Keys <= DeclsSpec(st, ds).classes.Keys
    decreases |ds|
  {
    if ds != [] {
      DeclKeeps(st, ds[0]);
      DeclsKeep(DeclSpec(st, ds[0]), ds[1..]);
    }
  }

  /** After the analysis every global function is registered under its own name, every
      class under its name, and every method of a class under `class--method`; global
      variables register nothing. */
  lemma {:induction false} ProgramRegisters(st: TypeTables, ds: seq<Decl>)
    ensures forall i :: 0 <= i < |ds| && ds[i].FnDecl? ==> ds[i].fnDecl.id.name in DeclsSpec(st, ds).functions
    ensures forall i :: 0 <= i < |ds| && ds[i].ClassDecl? ==> ds[i].classDecl.id.name in DeclsSpec(st, ds).classes
    ensures forall i, j :: 0 <= i < |ds| && ds[i].ClassDecl? && 0 <= j < |ds[i].classDecl.memberF| && ds[i].classDecl.memberF[j].FnDecl? ==>
              MethodName(ds[i].classDecl.id.name, ds[i].classDecl.memberF[j].fnDecl.id.name) in DeclsSpec(st, ds).functions
    decreases |ds|
  {
    if ds != [] {
      var st1 := DeclSpec(st, ds[0]);
      ProgramRegisters(st1, ds[1..]);
      DeclsKeep(st1, ds[1..]);
      if ds[0].ClassDecl? {
        ClassMethodsKeys(st.functions, ds[0].classDecl.id.name, ds[0].classDecl.memberF);
      }
      assert forall i :: 1 <= i < |ds| ==> ds[1..][i - 1] == ds[i];
    }
  }

  /** A global variable declaration leaves the tables as they were. */
  lemma VarDeclIgnored(st: TypeTables, v: VarDecl)
    ensures DeclSpec(st, Decl.VarDecl(v)) == st
  {
  }
}
