/** The tables the IR front end collects before lowering: global names with an optional
    initial value (string constants included, under `str<N>`), a counter for those
    constants, and per-function locals and temporary counts. */
module ThreeAC {
  import opened Wrappers
  import opened Strings

  /** Which table a name goes to: the globals, or the record of one function. */
  datatype FunctionType = Global | Local(id: string)

  datatype FunctionValue = FunctionValue(locals: seq<string>, tmps: nat)

  /** `FunctionValue::new`: no locals and no temporaries. */
  const NewFunctionValue: FunctionValue := FunctionValue([], 0)

  /** The three tables as one value. */
  datatype IrState = IrState(globals: map<string, Option<string>>, numStr: nat, functions: map<string, FunctionValue>)

  /** The tables `convert_3ac` starts from. */
  const EmptyIr: IrState := IrState(map[], 0, map[])

  /** The key of the n-th string constant. */
  function StrKey(n: nat): string {
    "str" + NatToString(n)
  }

  /** Different counters give different keys. */
  lemma StrKeyInjective(a: nat, b: nat)
    requires StrKey(a) == StrKey(b)
    ensures a == b
  {
    assert NatToString(a) == StrKey(a)[3..];
    assert NatToString(b) == StrKey(b)[3..];
    ParseNatToString(a);
    ParseNatToString(b);
  }

  /** `add_var`: a global name is (re)bound to its initial value; a local is appended to
      its function's record when there is one, and otherwise an empty record is created
      and the name is dropped. */
  function AddVarSpec(st: IrState, scope: FunctionType, varId: string, init: Option<string>): (r: IrState)
    ensures r.numStr == st.numStr
    ensures scope.Global? ==> r.globals == st.globals[varId := init] && r.functions == st.functions
    ensures scope.Local? ==>
              r.globals == st.globals
              && r.functions.Keys == st.functions.Keys + {scope.id}
              && (forall f :: f in st.functions && f != scope.id ==> r.functions[f] == st.functions[f])
              && (scope.id in st.functions ==>
                    r.functions[scope.id] == st.functions[scope.id].(locals := st.functions[scope.id].locals + [varId]))
              && (scope.id !in st.functions ==> r.functions[scope.id] == NewFunctionValue)
  {
    match scope
    case Global => st.(globals := st.globals[varId := init])
    case Local(id) =>
      if id in st.functions then
        var v := st.functions[id];
        st.(functions := st.functions[id := v.(locals := v.locals + [varId])])
      else st.(functions := st.functions[id := NewFunctionValue])
  }

  /** `add_fn`: the function's record is replaced by an empty one. */
  function AddFnSpec(st: IrState, id: string): (r: IrState)
    ensures r.globals == st.globals && r.numStr == st.numStr
    ensures r.functions.Keys == st.functions.Keys + {id} && r.functions[id] == NewFunctionValue
    ensures forall f :: f in st.functions && f != id ==> r.functions[f] == st.functions[f]
  {
    st.(functions := st.functions[id := NewFunctionValue])
  }

  /** `add_string`: the constant goes under the next `str<N>` key and the counter moves
      on; the function records are not touched. */
  function AddStringSpec(st: IrState, s: string): (r: IrState)
    ensures r.globals == st.globals[StrKey(st.numStr) := Some(s)]
    ensures r.numStr == st.numStr + 1
    ensures r.functions == st.functions
  {
    IrState(st.globals[StrKey(st.numStr) := Some(s)], st.numStr + 1, st.functions)
  }

  /** The temporaries counted for a function so far, 0 without a record. */
  function TmpsOf(st: IrState, id: string): nat {
    if id in st.functions then st.functions[id].tmps else 0
  }

  /** `inc_fn_tmps`: nothing at global scope; otherwise one more temporary for the
      function, creating its record when needed; globals and counter untouched. */
  function IncFnTmpsSpec(st: IrState, scope: FunctionType): (r: IrState)
    ensures r.globals == st.globals && r.numStr == st.numStr
    ensures scope.Global? ==> r == st
    ensures scope.Local? ==>
              r.functions.Keys == st.functions.Keys + {scope.id}
              && TmpsOf(r, scope.id) == TmpsOf(st, scope.id) + 1
              && (scope.id in st.functions ==> r.functions[scope.id].locals == st.functions[scope.id].locals)
              && (scope.id !in st.functions ==> r.functions[scope.id].locals == [])
              && (forall f :: f in st.functions && f != scope.id ==> r.functions[f] == st.functions[f])
  {
    match scope
    case Global => st
    case Local(id) =>
      if id in st.functions then
        var v := st.functions[id];
        st.(functions := st.functions[id := v.(tmps := v.tmps + 1)])
      else st.(functions := st.functions[id := NewFunctionValue.(tmps := 1)])
  }

  /** Two strings added one after the other are both kept, under consecutive keys. */
  lemma StringKeysDistinct(st: IrState, s1: string, s2: string)
    ensures var r := AddStringSpec(AddStringSpec(st, s1), s2);
      r.globals[StrKey(st.numStr)] == Some(s1) && r.globals[StrKey(st.numStr + 1)] == Some(s2)
  {
    if StrKey(st.numStr) == StrKey(st.numStr + 1) {
      StrKeyInjective(st.numStr, st.numStr + 1);
    }
  }

  /** `IntermediateRepresentation`: the three tables as fields updated in place. */
  class IntermediateRepresentation {
    var globals: map<string, Option<string>>
    var numStr: nat
    var functions: map<string, FunctionValue>

    function State(): IrState
      reads this
    {
      IrState(globals, numStr, functions)
    }

    /** The empty tables `convert_3ac` builds. */
    constructor ()
      ensures State() == EmptyIr
    {
      globals := map[];
      numStr := 0;
      functions := map[];
    }

    method AddVar(scope: FunctionType, varId: string, init: Option<string>)
      modifies this
      ensures State() == AddVarSpec(old(State()), scope, varId, init)
    {
      match scope
      case Global =>
        globals := globals[varId := init];
      case Local(id) =>
        if id in functions {
          var v := functions[id];
          functions := functions[id := v.(locals := v.locals + [varId])];
        } else {
          functions := functions[id := NewFunctionValue];
        }
    }

    method AddFn(id: string)
      modifies this
      ensures State() == AddFnSpec(old(State()), id)
    {
      functions := functions[id := NewFunctionValue];
    }

    method AddString(s: string)
      modifies this
      ensures State() == AddStringSpec(old(State()), s)
    {
      globals := globals[StrKey(numStr) := Some(s)];
      numStr := numStr + 1;
    }

    method IncFnTmps(currFn: FunctionType)
      modifies this
      ensures State() == IncFnTmpsSpec(old(State()), currFn)
    {
      if currFn.Global? {
        return;
      }
      var fnId := currFn.id;
      if fnId in functions {
        var v := functions[fnId];
        functions := functions[fnId := v.(tmps := v.tmps + 1)];
      } else {
        functions := functions[fnId := NewFunctionValue.(tmps := 1)];
      }
    }
  }
}
