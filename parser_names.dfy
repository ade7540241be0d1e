/** The scoped symbol table of the older name-annotating unparser
    (src/parser/named_unparser.rs), over the older AST. It keeps the same three tables as
    the newer one, but `ArgTable::add` reports a duplicate argument as an `Err`, and a
    lookup is written out in the node code (see ParserNamedNode). Printed diagnostics are
    recorded as their error kinds, as in the newer model. The keys, kinds and state have
    the newer table's shape but hold the older AST's `Type`, a different datatype, so the
    table operations that behave alike in both versions (`report_error`, the field loop of
    `add_class_instance`, `remove_scope`) are written again over these types. */
module ParserNames {
  import opened Wrappers
  import opened Strings
  import opened AstOld
  import Names
  import Debug

  /** The same three kinds as the newer analysis reports. */
  type NameError = Names.NameError

  /** A name and the nesting depth it was declared at; depth 0 is the global one. */
  datatype SymbolKey = SymbolKey(id: string, scope: nat)

  /** The argument map of a function symbol: each formal name with its type, in the order
      the names were added. */
  type ArgTable = seq<(string, Type)>

  datatype SymbolKind = Variable(varType: Type) | Function(args: ArgTable, ret: Type)

  /** The fields of `NamedUnparser`, plus the diagnostics printed so far. */
  datatype NameState = NameState(
    scope: nat,
    table: map<SymbolKey, SymbolKind>,
    classes: map<string, map<string, SymbolKind>>,
    error: bool,
    errors: seq<NameError>)

  const InitState: NameState := NameState(0, map[], map[], false, [])

  // ---------------------------------------------------------------- ArgTable

  /** The type recorded for a name, if any. */
  function ArgLookup(t: ArgTable, name: string): Option<Type>
    decreases |t|
  {
    if t == [] then None else if t[0].0 == name then Some(t[0].1) else ArgLookup(t[1..], name)
  }

  lemma {:induction false} ArgLookupSnoc(t: ArgTable, name: string, ty: Type, n: string)
    ensures ArgLookup(t + [(name, ty)], n) == if ArgLookup(t, n).Some? then ArgLookup(t, n) else if n == name then Some(ty) else None
    decreases |t|
  {
    if t == [] {
      assert [(name, ty)][1..] == [];
    } else {
      assert (t + [(name, ty)])[1..] == t[1..] + [(name, ty)];
      ArgLookupSnoc(t[1..], name, ty, n);
    }
  }

  /** The message `ArgTable::add` gives back for a name already in the table. */
  function DuplicateArgMessage(name: string): string {
    name + " is already in the arg table"
  }

  /** The table after `ArgTable::add`, and what it returned. */
  datatype Added = Added(table: ArgTable, outcome: Result<(), string>)

  /** `ArgTable::add`: a name already present is refused with an `Err` naming it and the
      table stays as it was; a new name is recorded with its type and the call succeeds. */
  function ArgAdd(t: ArgTable, name: string, ty: Type): (r: Added)
    ensures r.outcome.Err? <==> ArgLookup(t, name).Some?
    ensures r.outcome.Err? ==> r.table == t && r.outcome.error == DuplicateArgMessage(name)
    ensures r.outcome.Ok? ==> ArgLookup(r.table, name) == Some(ty) && |r.table| == |t| + 1
    ensures forall n :: n != name ==> ArgLookup(r.table, n) == ArgLookup(t, n)
  {
    if ArgLookup(t, name).Some? then Added(t, Err(DuplicateArgMessage(name)))
    else
      assert forall n :: ArgLookup(t + [(name, ty)], n) == if ArgLookup(t, n).Some? then ArgLookup(t, n) else if n == name then Some(ty) else None by {
        forall n ensures ArgLookup(t + [(name, ty)], n) == if ArgLookup(t, n).Some? then ArgLookup(t, n) else if n == name then Some(ty) else None {
          ArgLookupSnoc(t, name, ty, n);
        }
      }
      Added(t + [(name, ty)], Ok(()))
  }

  /** The name of a formal argument, as `Id`'s `to_string` gives it, and its type. */
  function FormalName(f: FormalDecl): string {
    match f
    case VarDecl(x) => Debug.IdDebug(x.id)
    case FormalDecl(id, _) => Debug.IdDebug(id)
  }

  function FormalType(f: FormalDecl): Type {
    match f
    case VarDecl(x) => x.varType
    case FormalDecl(_, t) => t
  }

  /** The type of the first formal with the given name. */
  function FirstFormal(args: seq<FormalDecl>, name: string): Option<Type>
    decreases |args|
  {
    if args == [] then None
    else if FormalName(args[0]) == name then Some(FormalType(args[0]))
    else FirstFormal(args[1..], name)
  }

  /** The argument map `process_fn` builds: every formal added in order, the outcome of
      each `add` ignored. */
  function ArgsAdd(t: ArgTable, args: seq<FormalDecl>): ArgTable
    decreases |args|
  {
    if args == [] then t else ArgsAdd(ArgAdd(t, FormalName(args[0]), FormalType(args[0])).table, args[1..])
  }

  /** Since a refused duplicate leaves the table alone, each name ends up with the type of
      its first formal. */
  lemma {:induction false} ArgsAddFirstWins(t: ArgTable, args: seq<FormalDecl>, n: string)
    ensures ArgLookup(ArgsAdd(t, args), n) == if ArgLookup(t, n).Some? then ArgLookup(t, n) else FirstFormal(args, n)
    decreases |args|
  {
    if args != [] {
      ArgsAddFirstWins(ArgAdd(t, FormalName(args[0]), FormalType(args[0])).table, args[1..], n);
    }
  }

  /** `get_types`: the argument types, separated by `", "`. */
  function ArgTypesText(t: ArgTable): string {
    Join(ArgTypeTexts(t), ", ")
  }

  function ArgTypeTexts(t: ArgTable): (r: seq<string>)
    ensures |r| == |t|
    ensures forall i :: 0 <= i < |t| ==> r[i] == Debug.TypeDebug(t[i].1)
  {
    if t == [] then [] else [Debug.TypeDebug(t[0].1)] + ArgTypeTexts(t[1..])
  }

  /** `Display` for a symbol kind: a variable prints its type, a function
      `{(types)->ret}`. */
  function SymbolKindText(k: SymbolKind): string {
    match k
    case Variable(t) => Debug.TypeDebug(t)
    case Function(args, ret) => "{(" + ArgTypesText(args) + ")->" + Debug.TypeDebug(ret) + "}"
  }

  // ---------------------------------------------------------------- table operations

  /** `report_error`: the diagnostic is recorded and the flag is set. */
  function ReportErrorSpec(st: NameState, e: NameError): (r: NameState)
    ensures r.error && r.errors == st.errors + [e]
    ensures r.scope == st.scope && r.table == st.table && r.classes == st.classes
  {
    st.(error := true, errors := st.errors + [e])
  }

  /** A variable symbol of type `void` or `perfect void`. */
  predicate IsVoid(k: SymbolKind) {
    k.Variable? && (k.varType == Prim(Void) || k.varType == PerfectPrim(Void))
  }

  /** `add_entry`: a void variable reports BadType, a name already declared at the current
      depth reports MultipleDecl, and only when neither happened is the entry inserted. */
  function AddEntrySpec(st: NameState, id: string, kind: SymbolKind): (r: NameState)
    ensures r.scope == st.scope && r.classes == st.classes
    ensures var key := SymbolKey(id, st.scope);
      r.table == if IsVoid(kind) || key in st.table then st.table else st.table[key := kind]
    ensures var key := SymbolKey(id, st.scope);
      r.errors == st.errors + (if IsVoid(kind) then [Names.BadType] else []) + (if key in st.table then [Names.MultipleDecl] else [])
    ensures r.error == (st.error || IsVoid(kind) || SymbolKey(id, st.scope) in st.table)
  {
    var key := SymbolKey(id, st.scope);
    var st1 := if IsVoid(kind) then ReportErrorSpec(st, Names.BadType) else st;
    var st2 := if key in st1.table then ReportErrorSpec(st1, Names.MultipleDecl) else st1;
    if !IsVoid(kind) && key !in st.table then st2.(table := st2.table[key := kind]) else st2
  }

  /** `add_class_entry`: the first field of a class creates its map; a field already in
      the map reports MultipleDecl and leaves the map as it was. */
  function AddClassEntrySpec(st: NameState, classId: string, fieldId: string, kind: SymbolKind): (r: NameState)
    ensures r.scope == st.scope && r.table == st.table
    ensures classId in r.classes && fieldId in r.classes[classId]
    ensures r.classes.Keys == st.classes.Keys + {classId}
    ensures forall c :: c in st.classes && c != classId ==> r.classes[c] == st.classes[c]
    ensures classId !in st.classes ==> r.classes[classId] == map[fieldId := kind] && r.errors == st.errors
    ensures classId in st.classes && fieldId in st.classes[classId] ==>
              r.classes == st.classes && r.errors == st.errors + [Names.MultipleDecl]
    ensures classId in st.classes && fieldId !in st.classes[classId] ==>
              r.classes[classId] == st.classes[classId][fieldId := kind] && r.errors == st.errors
    ensures r.error == (st.error || r.errors != st.errors)
  {
    if classId in st.classes then
      var fields := st.classes[classId];
      if fieldId in fields then ReportErrorSpec(st, Names.MultipleDecl)
      else st.(classes := st.classes[classId := fields[fieldId := kind]])
    else
      st.(classes := st.classes[classId := map[fieldId := kind]])
  }

  /** `add_entry` once per kind, under one name. */
  function AddEntries(st: NameState, id: string, kinds: seq<SymbolKind>): (r: NameState)
    ensures r.scope == st.scope && r.classes == st.classes
    ensures st.error ==> r.error
    decreases |kinds|
  {
    if kinds == [] then st else AddEntries(AddEntrySpec(st, id, kinds[0]), id, kinds[1..])
  }

  /** The field kinds of a class map, in the given order. */
  function FieldKinds(fields: map<string, SymbolKind>, order: seq<string>): (r: seq<SymbolKind>)
    requires forall n :: n in order ==> n in fields
    ensures |r| == |order|
    ensures forall i :: 0 <= i < |order| ==> r[i] == fields[order[i]]
  {
    if order == [] then [] else [fields[order[0]]] + FieldKinds(fields, order[1..])
  }

  /** `add_class_instance`: an unknown class reports UndefinedDecl; a known one declares
      `{var_id}--{class_id}` once per field, in the order `order` lists the fields. */
  function AddClassInstanceSpec(st: NameState, classId: string, varId: string, order: seq<string>): NameState
    requires classId in st.classes ==> Names.Enumerates(order, st.classes[classId])
  {
    if classId in st.classes then AddEntries(st, Names.InstanceName(varId, classId), FieldKinds(st.classes[classId], order))
    else ReportErrorSpec(st, Names.UndefinedDecl)
  }

  lemma {:induction false} AddEntriesRepeated(st: NameState, id: string, kinds: seq<SymbolKind>)
    requires |kinds| >= 2
    ensures AddEntries(st, id, kinds).error
    decreases |kinds|
  {
    var st1 := AddEntrySpec(st, id, kinds[0]);
    var st2 := AddEntrySpec(st1, id, kinds[1]);
    assert st2.error;
    if |kinds| == 2 {
      assert kinds[1..][1..] == [];
    } else {
      AddEntriesRepeated(st1, id, kinds[1..]);
    }
  }

  lemma {:induction false} AddEntriesOneKey(st: NameState, id: string, kinds: seq<SymbolKind>)
    ensures AddEntries(st, id, kinds).table.Keys <= st.table.Keys + {SymbolKey(id, st.scope)}
    ensures forall k :: k in st.table ==> k in AddEntries(st, id, kinds).table && AddEntries(st, id, kinds).table[k] == st.table[k]
    decreases |kinds|
  {
    if kinds != [] {
      AddEntriesOneKey(AddEntrySpec(st, id, kinds[0]), id, kinds[1..]);
    }
  }

  /** An unknown class only reports; a known one can add only the one instance name at the
      current depth, and a class of two or more fields always ends in an error since each
      field is declared under that same name. */
  lemma AddClassInstanceEffect(st: NameState, classId: string, varId: string, order: seq<string>)
    requires classId in st.classes ==> Names.Enumerates(order, st.classes[classId])
    ensures classId !in st.classes ==> AddClassInstanceSpec(st, classId, varId, order) == ReportErrorSpec(st, Names.UndefinedDecl)
    ensures AddClassInstanceSpec(st, classId, varId, order).table.Keys <= st.table.Keys + {SymbolKey(Names.InstanceName(varId, classId), st.scope)}
    ensures classId in st.classes && |st.classes[classId]| >= 2 ==> AddClassInstanceSpec(st, classId, varId, order).error
  {
    if classId in st.classes {
      var kinds := FieldKinds(st.classes[classId], order);
      AddEntriesOneKey(st, Names.InstanceName(varId, classId), kinds);
      if |st.classes[classId]| >= 2 {
        Names.EnumerationSize(order, st.classes[classId]);
        AddEntriesRepeated(st, Names.InstanceName(varId, classId), kinds);
      }
    }
  }

  /** `remove_scope`: exactly the entries at depth `s` are dropped. */
  function RemoveScopeSpec(st: NameState, s: nat): (r: NameState)
    ensures r.scope == st.scope && r.classes == st.classes && r.error == st.error && r.errors == st.errors
    ensures forall k :: k in r.table <==> k in st.table && k.scope != s
    ensures forall k :: k in r.table ==> r.table[k] == st.table[k]
  {
    st.(table := map k | k in st.table && k.scope != s :: st.table[k])
  }

  // ---------------------------------------------------------------- the objects

  /** The `HashMap<String, Type>` a function's arguments are collected in. */
  class ArgMap {
    var entries: ArgTable

    constructor ()
      ensures entries == []
    {
      entries := [];
    }

    /** `ArgTable::add`, updating the map in place. */
    method Add(arg: FormalDecl) returns (r: Result<(), string>)
      modifies this
      ensures Added(entries, r) == ArgAdd(old(entries), FormalName(arg), FormalType(arg))
    {
      var argId := FormalName(arg);
      if ArgLookup(entries, argId).Some? {
        r := Err(DuplicateArgMessage(argId));
      } else {
        ArgLookupSnocAll(entries, argId, FormalType(arg));
        entries := entries + [(argId, FormalType(arg))];
        r := Ok(());
      }
    }
  }

  lemma ArgLookupSnocAll(t: ArgTable, name: string, ty: Type)
    ensures forall n :: ArgLookup(t + [(name, ty)], n) == if ArgLookup(t, n).Some? then ArgLookup(t, n) else if n == name then Some(ty) else None
  {
    forall n ensures ArgLookup(t + [(name, ty)], n) == if ArgLookup(t, n).Some? then ArgLookup(t, n) else if n == name then Some(ty) else None {
      ArgLookupSnoc(t, name, ty, n);
    }
  }

  /** `NamedUnparser`: the depth, the table, the class maps and the flag as fields. */
  class NamedUnparser {
    var scope: nat
    var table: map<SymbolKey, SymbolKind>
    var classes: map<string, map<string, SymbolKind>>
    var error: bool
    var errors: seq<NameError>

    function State(): NameState
      reads this
    {
      NameState(scope, table, classes, error, errors)
    }

    constructor ()
      ensures State() == InitState
    {
      scope := 0;
      table := map[];
      classes := map[];
      error := false;
      errors := [];
    }

    method ReportError(e: NameError)
      modifies this
      ensures State() == ReportErrorSpec(old(State()), e)
    {
      errors := errors + [e];
      error := true;
    }

    method AddEntry(id: string, kind: SymbolKind)
      modifies this
      ensures State() == AddEntrySpec(old(State()), id, kind)
    {
      var key := SymbolKey(id, scope);
      var err := false;
      if kind.Variable? && (kind.varType == Prim(Void) || kind.varType == PerfectPrim(Void)) {
        ReportError(Names.BadType);
        err := true;
      }
      if key in table {
        ReportError(Names.MultipleDecl);
        err := true;
      }
      if !err {
        table := table[key := kind];
      }
    }

    method AddClassEntry(classId: string, fieldId: string, kind: SymbolKind)
      modifies this
      ensures State() == AddClassEntrySpec(old(State()), classId, fieldId, kind)
    {
      if classId in classes {
        var fields := classes[classId];
        if fieldId in fields {
          ReportError(Names.MultipleDecl);
        } else {
          classes := classes[classId := fields[fieldId := kind]];
        }
      } else {
        var newClass := map[fieldId := kind];
        classes := classes[classId := newClass];
      }
    }

    method AddClassInstance(classId: string, varId: string, order: seq<string>)
      requires classId in classes ==> Names.Enumerates(order, classes[classId])
      modifies this
      ensures State() == AddClassInstanceSpec(old(State()), classId, varId, order)
    {
      if classId in classes {
        var kinds := FieldKinds(classes[classId], order);
        var name := Names.InstanceName(varId, classId);
        for i := 0 to |kinds|
          invariant AddEntries(State(), name, kinds[i..]) == AddEntries(old(State()), name, kinds)
        {
          assert kinds[i..][0] == kinds[i] && kinds[i..][1..] == kinds[i + 1..];
          AddEntry(name, kinds[i]);
        }
        assert kinds[|kinds|..] == [];
      } else {
        ReportError(Names.UndefinedDecl);
      }
    }

    method RemoveScope(s: nat)
      modifies this
      ensures State() == RemoveScopeSpec(old(State()), s)
    {
      table := map k | k in table && k.scope != s :: table[k];
    }
  }
}
