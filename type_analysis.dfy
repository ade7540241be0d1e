/** Type-signature registration (src/analysis/_type.rs): functions map to their argument
    and return types, classes to the types of their variable members, and class methods are
    registered as functions named `class--method`. No expression is type-checked. */
module TypeAnalysis {
  import opened Wrappers
  import opened AstNew

  datatype FunctionKind = FunctionKind(argTypes: seq<Type>, returnType: Type)

  datatype ErrorType =
    | GiveFn | GiveClass | GiveVoid | ReadFn | ReadClass | CallNonFn | FnWrongArgNum
    | FnWrongArgType | ReturnMissing | ReturnBad | ReturnVoid | WrongOpMath | WrongOpCmp
    | WrongOpLogic | CondNonBool | BadEquality | BadAssign | NonLval

  /** The two tables as one value. */
  datatype TypeTables = TypeTables(functions: map<string, FunctionKind>, classes: map<string, seq<Type>>)

  const EmptyTables: TypeTables := TypeTables(map[], map[])

  /** The declared type of a formal argument, whichever form it takes. */
  function FormalType(f: FormalDecl): Type {
    match f
    case VarDecl(v) => v.varType
    case FormalDecl(_, t) => t
  }

  /** The argument types, in formal order. */
  function ArgTypes(args: seq<FormalDecl>): (r: seq<Type>)
    ensures |r| == |args|
    ensures forall i :: 0 <= i < |args| ==> r[i] == FormalType(args[i])
  {
    if args == [] then [] else [FormalType(args[0])] + ArgTypes(args[1..])
  }

  function KindOf(f: FnDecl): FunctionKind {
    FunctionKind(ArgTypes(f.args), f.ret)
  }

  /** The name a class method is registered under. */
  function MethodName(className: string, fnName: string): string {
    className + "--" + fnName
  }

  /** The types of the variable members, in declaration order; methods and nested classes
      contribute nothing. */
  function FieldTypes(members: seq<Decl>): (r: seq<Type>)
    ensures |r| <= |members|
    ensures (forall i :: 0 <= i < |members| ==> members[i].VarDecl?) ==>
              |r| == |members| && forall i :: 0 <= i < |members| ==> r[i] == members[i].varDecl.varType
  {
    if members == [] then []
    else (if members[0].VarDecl? then [members[0].varDecl.varType] else []) + FieldTypes(members[1..])
  }

  /** The functions table after the methods of a class are registered, in member order. */
  function ClassMethods(fns: map<string, FunctionKind>, className: string, members: seq<Decl>): map<string, FunctionKind>
    decreases |members|
  {
    if members == [] then fns
    else
      var fns' := if members[0].FnDecl? then fns[MethodName(className, members[0].fnDecl.id.name) := KindOf(members[0].fnDecl)] else fns;
      ClassMethods(fns', className, members[1..])
  }

  /** Only the methods of the class gain or change entries, each under `class--method`. */
  lemma {:induction false} ClassMethodsKeys(fns: map<string, FunctionKind>, className: string, members: seq<Decl>)
    ensures var r := ClassMethods(fns, className, members);
      (forall i :: 0 <= i < |members| && members[i].FnDecl? ==> MethodName(className, members[i].fnDecl.id.name) in r)
      && (forall k :: k in fns ==> k in r)
      && (forall k :: k in r && (forall i :: 0 <= i < |members| && members[i].FnDecl? ==> k != MethodName(className, members[i].fnDecl.id.name)) ==>
                       k in fns && r[k] == fns[k])
    decreases |members|
  {
    if members != [] {
      var fns' := if members[0].FnDecl? then fns[MethodName(className, members[0].fnDecl.id.name) := KindOf(members[0].fnDecl)] else fns;
      var r := ClassMethods(fns, className, members);
      assert r == ClassMethods(fns', className, members[1..]);
      ClassMethodsKeys(fns', className, members[1..]);
      assert forall i :: 1 <= i < |members| ==> members[1..][i - 1] == members[i];
      forall i | 0 <= i < |members| && members[i].FnDecl?
        ensures MethodName(className, members[i].fnDecl.id.name) in r
      {
        if i == 0 {
          assert MethodName(className, members[0].fnDecl.id.name) in fns';
        } else {
          assert members[1..][i - 1] == members[i];
        }
      }
      forall k | k in r && (forall i :: 0 <= i < |members| && members[i].FnDecl? ==> k != MethodName(className, members[i].fnDecl.id.name))
        ensures k in fns && r[k] == fns[k]
      {
        forall j | 0 <= j < |members[1..]| && members[1..][j].FnDecl?
          ensures k != MethodName(className, members[1..][j].fnDecl.id.name)
        {
          assert members[1..][j] == members[j + 1];
        }
        assert k in fns' && r[k] == fns'[k];
      }
    }
  }

  /** A method declared once in its class is registered with its own signature. */
  lemma {:induction false} ClassMethodSignature(fns: map<string, FunctionKind>, className: string, members: seq<Decl>, i: nat)
    requires i < |members| && members[i].FnDecl?
    requires forall j :: 0 <= j < |members| && j != i && members[j].FnDecl? ==>
               members[j].fnDecl.id.name != members[i].fnDecl.id.name
    ensures MethodName(className, members[i].fnDecl.id.name) in ClassMethods(fns, className, members)
    ensures ClassMethods(fns, className, members)[MethodName(className, members[i].fnDecl.id.name)] == KindOf(members[i].fnDecl)
    decreases |members|
  {
    var f := members[i].fnDecl;
    var key := MethodName(className, f.id.name);
    var fns' := if members[0].FnDecl? then fns[MethodName(className, members[0].fnDecl.id.name) := KindOf(members[0].fnDecl)] else fns;
    if i == 0 {
      assert key in fns' && fns'[key] == KindOf(f);
      assert ClassMethods(fns, className, members) == ClassMethods(fns', className, members[1..]);
      ClassMethodsKeys(fns', className, members[1..]);
      forall j | 0 <= j < |members[1..]| && members[1..][j].FnDecl?
        ensures key != MethodName(className, members[1..][j].fnDecl.id.name)
      {
        assert members[1..][j] == members[j + 1];
        if key == MethodName(className, members[j + 1].fnDecl.id.name) {
          MethodNameInjective(className, f.id.name, members[j + 1].fnDecl.id.name);
        }
      }
    } else {
      assert members[1..][i - 1] == members[i];
      forall j | 0 <= j < |members[1..]| && j != i - 1 && members[1..][j].FnDecl?
        ensures members[1..][j].fnDecl.id.name != members[1..][i - 1].fnDecl.id.name
      {
        assert members[1..][j] == members[j + 1];
      }
      ClassMethodSignature(fns', className, members[1..], i - 1);
    }
  }

  /** Different method names of one class are registered under different keys. */
  lemma MethodNameInjective(className: string, a: string, b: string)
    requires MethodName(className, a) == MethodName(className, b)
    ensures a == b
  {
    var n := |className| + 2;
    assert a == MethodName(className, a)[n..];
    assert b == MethodName(className, b)[n..];
  }

  /** `add_fn` and `add_fn_helper`: the signature replaces any entry with the same name. */
  function AddFnSpec(st: TypeTables, f: FnDecl): TypeTables {
    st.(functions := st.functions[f.id.name := KindOf(f)])
  }

  /** `add_class`: the field types replace any entry for the class, after its methods are
      registered. */
  function AddClassSpec(st: TypeTables, c: ClassDecl): TypeTables {
    TypeTables(ClassMethods(st.functions, c.id.name, c.memberF), st.classes[c.id.name := FieldTypes(c.memberF)])
  }

  class TypeAnalyzer {
    var functions: map<string, FunctionKind>
    var classes: map<string, seq<Type>>
    var error: bool
    /** The diagnostics `report_error` prints, by kind. */
    var errors: seq<ErrorType>

    function Tables(): TypeTables
      reads this
    {
      TypeTables(functions, classes)
    }

    /** The analyzer `type_error_check` starts with. */
    constructor ()
      ensures Tables() == EmptyTables && !error && errors == []
    {
      functions := map[];
      classes := map[];
      error := false;
      errors := [];
    }

    method AddFn(f: FnDecl)
      modifies this
      ensures Tables() == AddFnSpec(old(Tables()), f)
      ensures error == old(error) && errors == old(errors)
    {
      AddFnHelper(f, f.id.name);
    }

    method AddClassFn(className: string, f: FnDecl)
      modifies this
      ensures functions == old(functions)[MethodName(className, f.id.name) := KindOf(f)]
      ensures classes == old(classes) && error == old(error) && errors == old(errors)
    {
      AddFnHelper(f, MethodName(className, f.id.name));
    }

    /** Collects the argument types in a loop, then inserts the signature under `id`. */
    method AddFnHelper(f: FnDecl, id: string)
      modifies this
      ensures functions == old(functions)[id := KindOf(f)]
      ensures classes == old(classes) && error == old(error) && errors == old(errors)
    {
      var argTypes: seq<Type> := [];
      for i := 0 to |f.args|
        invariant argTypes == ArgTypes(f.args[..i])
      {
        assert f.args[..i + 1] == f.args[..i] + [f.args[i]];
        match f.args[i]
        case VarDecl(x) => argTypes := argTypes + [x.varType];
        case FormalDecl(_, t) => argTypes := argTypes + [t];
      }
      assert f.args[..|f.args|] == f.args;
      functions := functions[id := FunctionKind(argTypes, f.ret)];
    }

    method AddClass(c: ClassDecl)
      modifies this
      ensures Tables() == AddClassSpec(old(Tables()), c)
      ensures error == old(error) && errors == old(errors)
    {
      var fieldTypes: seq<Type> := [];
      for i := 0 to |c.memberF|
        invariant fieldTypes == FieldTypes(c.memberF[..i])
        invariant ClassMethods(functions, c.id.name, c.memberF[i..]) == ClassMethods(old(functions), c.id.name, c.memberF)
        invariant classes == old(classes) && error == old(error) && errors == old(errors)
      {
        ClassMethodsAt(functions, c.id.name, c.memberF, i);
        FieldTypesUpTo(c.memberF, i);
        match c.memberF[i]
        case VarDecl(x) => fieldTypes := fieldTypes + [x.varType];
        case FnDecl(x) => AddClassFn(c.id.name, x);
        case ClassDecl(_) =>
      }
      assert c.memberF[..|c.memberF|] == c.memberF;
      assert c.memberF[|c.memberF|..] == [];
      classes := classes[c.id.name := fieldTypes];
    }

    /** `report_error`: the flag is set for every kind, and stays set. */
    method ReportError(err: ErrorType)
      modifies this
      ensures error && errors == old(errors) + [err]
      ensures Tables() == old(Tables())
    {
      error := true;
      errors := errors + [err];
    }
  }

  /** Registering the members from index `i` on is registering member `i`, then the rest. */
  lemma ClassMethodsAt(fns: map<string, FunctionKind>, className: string, members: seq<Decl>, i: nat)
    requires i < |members|
    ensures ClassMethods(fns, className, members[i..]) ==
      ClassMethods(if members[i].FnDecl? then fns[MethodName(className, members[i].fnDecl.id.name) := KindOf(members[i].fnDecl)] else fns, className, members[i + 1..])
  {
    assert members[i..][0] == members[i] && members[i..][1..] == members[i + 1..];
  }

  /** The field types of the first `i + 1` members extend those of the first `i`. */
  lemma FieldTypesUpTo(members: seq<Decl>, i: nat)
    requires i < |members|
    ensures FieldTypes(members[..i + 1]) == FieldTypes(members[..i]) + (if members[i].VarDecl? then [members[i].varDecl.varType] else [])
  {
    assert members[..i + 1] == members[..i] + [members[i]];
    FieldTypesSnoc(members[..i], members[i]);
  }

  lemma {:induction false} FieldTypesSnoc(members: seq<Decl>, d: Decl)
    ensures FieldTypes(members + [d]) == FieldTypes(members) + (if d.VarDecl? then [d.varDecl.varType] else [])
    decreases |members|
  {
    if members == [] {
      assert [] + [d] == [d];
    } else {
      var m := members + [d];
      var h := if members[0].VarDecl? then [members[0].varDecl.varType] else [];
      var t := if d.VarDecl? then [d.varDecl.varType] else [];
      assert m[0] == members[0] && m[1..] == members[1..] + [d];
      FieldTypesSnoc(members[1..], d);
      assert FieldTypes(m) == h + (FieldTypes(members[1..]) + t);
      assert h + (FieldTypes(members[1..]) + t) == (h + FieldTypes(members[1..])) + t;
    }
  }
}
