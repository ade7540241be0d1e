/** The scoped symbol table of the newer name analysis (src/analysis/name.rs): entries keyed
    by (name, depth), per-class field maps, and a sticky error flag. A printed diagnostic
    is recorded as its error kind, appended to `errors`. */
module Names {
  import opened Wrappers
  import opened Strings
  import opened AstNew
  import Display

  datatype NameError = BadType | MultipleDecl | UndefinedDecl

  /** A name and the nesting depth it was declared at; depth 0 is the global one. */
  datatype SymbolKey = SymbolKey(id: string, scope: nat)

  /** The argument map of a function symbol: each formal name with its type, kept in the
      order the names were first added. */
  type ArgTable = seq<(string, Type)>

  datatype SymbolKind = Variable(varType: Type) | Function(args: ArgTable, ret: Type)

  /** The fields of `NamedUnparser`, plus the diagnostics printed so far. */
  datatype NameState = NameState(
    scope: nat,
    table: map<SymbolKey, SymbolKind>,
    classes: map<string, map<string, SymbolKind>>,
    error: bool,
    errors: seq<NameError>)

  /** The unparser `named_unparse` starts from. */
  const InitState: NameState := NameState(0, map[], map[], false, [])

  // ---------------------------------------------------------------- ArgTable

  /** The type recorded for a name, if any: the first entry with that name. */
  function ArgLookup(t: ArgTable, name: string): Option<Type>
    decreases |t|
  {
    if t == [] then None else if t[0].0 == name then Some(t[0].1) else ArgLookup(t[1..], name)
  }

  lemma {:induction false} ArgLookupSnoc(t: ArgTable, name: string, ty: Type, n: string)
    ensures ArgLookup(t + [(name, ty)], n) == if ArgLookup(t, n).Some? then ArgLookup(t, n) else if n == name then Some(ty) else None
    decreases |t|
  {
    if t == [] {
      assert [(name, ty)][1..] == [];
    } else {
      assert (t + [(name, ty)])[1..] == t[1..] + [(name, ty)];
      ArgLookupSnoc(t[1..], name, ty, n);
    }
  }

  /** `ArgTable::add`: a name not yet present is recorded with its type; a name already
      present keeps the type it was first added with, and nothing else changes. */
  function ArgAdd(t: ArgTable, name: string, ty: Type): (r: ArgTable)
    ensures ArgLookup(r, name) == if ArgLookup(t, name).Some? then ArgLookup(t, name) else Some(ty)
    ensures forall n :: n != name ==> ArgLookup(r, n) == ArgLookup(t, n)
    ensures |r| == |t| + (if ArgLookup(t, name).Some? then 0 else 1)
  {
    if ArgLookup(t, name).Some? then t
    else
      assert forall n :: ArgLookup(t + [(name, ty)], n) == if ArgLookup(t, n).Some? then ArgLookup(t, n) else if n == name then Some(ty) else None by {
        forall n ensures ArgLookup(t + [(name, ty)], n) == if ArgLookup(t, n).Some? then ArgLookup(t, n) else if n == name then Some(ty) else None {
          ArgLookupSnoc(t, name, ty, n);
        }
      }
      t + [(name, ty)]
  }

  /** The name and the type of a formal argument. */
  function FormalName(f: FormalDecl): string {
    match f
    case VarDecl(x) => x.id.name
    case FormalDecl(id, _) => id.name
  }

  function FormalType(f: FormalDecl): Type {
    match f
    case VarDecl(x) => x.varType
    case FormalDecl(_, t) => t
  }

  /** The type of the first formal with the given name. */
  function FirstFormal(args: seq<FormalDecl>, name: string): Option<Type>
    decreases |args|
  {
    if args == [] then None
    else if FormalName(args[0]) == name then Some(FormalType(args[0]))
    else FirstFormal(args[1..], name)
  }

  /** The loop of `process_fn`: every formal added, in order. */
  function ArgsAdd(t: ArgTable, args: seq<FormalDecl>): ArgTable
    decreases |args|
  {
    if args == [] then t else ArgsAdd(ArgAdd(t, FormalName(args[0]), FormalType(args[0])), args[1..])
  }

  /** After adding a list of formals, a name maps to the type it had before, or else to the
      type of its first formal: later duplicates are ignored. */
  lemma {:induction false} ArgsAddFirstWins(t: ArgTable, args: seq<FormalDecl>, n: string)
    ensures ArgLookup(ArgsAdd(t, args), n) == if ArgLookup(t, n).Some? then ArgLookup(t, n) else FirstFormal(args, n)
    decreases |args|
  {
    if args != [] {
      ArgsAddFirstWins(ArgAdd(t, FormalName(args[0]), FormalType(args[0])), args[1..], n);
    }
  }

  /** `get_types`: the argument types as `Display` prints them, separated by `", "`. */
  function ArgTypesText(t: ArgTable): string {
    Join(ArgTypeTexts(t), ", ")
  }

  function ArgTypeTexts(t: ArgTable): (r: seq<string>)
    ensures |r| == |t|
    ensures forall i :: 0 <= i < |t| ==> r[i] == Display.TypeText(t[i].1)
  {
    if t == [] then [] else [Display.TypeText(t[0].1)] + ArgTypeTexts(t[1..])
  }

  /** `Display` for a symbol kind: a variable prints its type, a function
      `{(types)->ret}`. */
  function SymbolKindText(k: SymbolKind): string {
    match k
    case Variable(t) => Display.TypeText(t)
    case Function(args, ret) => "{(" + ArgTypesText(args) + ")->" + Display.TypeText(ret) + "}"
  }

  // ---------------------------------------------------------------- table operations

  /** `report_error`: the diagnostic is recorded and the flag is set. */
  function ReportErrorSpec(st: NameState, e: NameError): (r: NameState)
    ensures r.error && r.errors == st.errors + [e]
    ensures r.scope == st.scope && r.table == st.table && r.classes == st.classes
  {
    st.(error := true, errors := st.errors + [e])
  }

  /** A variable symbol of type void, perfect or not. */
  predicate IsVoid(k: SymbolKind) {
    k.Variable? && k.varType.kind == Prim(Void)
  }

  /** `add_entry`: a void variable reports BadType, a name already declared at the current
      depth reports MultipleDecl, and only when neither happened is the entry inserted. */
  function AddEntrySpec(st: NameState, id: string, kind: SymbolKind): (r: NameState)
    ensures r.scope == st.scope && r.classes == st.classes
    ensures var key := SymbolKey(id, st.scope);
      r.table == if IsVoid(kind) || key in st.table then st.table else st.table[key := kind]
    ensures var key := SymbolKey(id, st.scope);
      r.errors == st.errors + (if IsVoid(kind) then [BadType] else []) + (if key in st.table then [MultipleDecl] else [])
    ensures r.error == (st.error || IsVoid(kind) || SymbolKey(id, st.scope) in st.table)
  {
    var key := SymbolKey(id, st.scope);
    var st1 := if IsVoid(kind) then ReportErrorSpec(st, BadType) else st;
    var st2 := if key in st1.table then ReportErrorSpec(st1, MultipleDecl) else st1;
    if !IsVoid(kind) && key !in st.table then st2.(table := st2.table[key := kind]) else st2
  }

  /** `add_class_entry`: the first field of a class creates its map; a field already in
      the map reports MultipleDecl and leaves the map as it was. */
  function AddClassEntrySpec(st: NameState, classId: string, fieldId: string, kind: SymbolKind): (r: NameState)
    ensures r.scope == st.scope && r.table == st.table
    ensures classId in r.classes && fieldId in r.classes[classId]
    ensures r.classes.Keys == st.classes.Keys + {classId}
    ensures forall c :: c in st.classes && c != classId ==> r.classes[c] == st.classes[c]
    ensures classId !in st.classes ==> r.classes[classId] == map[fieldId := kind] && r.errors == st.errors
    ensures classId in st.classes && fieldId in st.classes[classId] ==>
              r.classes == st.classes && r.errors == st.errors + [MultipleDecl]
    ensures classId in st.classes && fieldId !in st.classes[classId] ==>
              r.classes[classId] == st.classes[classId][fieldId := kind] && r.errors == st.errors
    ensures r.error == (st.error || r.errors != st.errors)
  {
    if classId in st.classes then
      var fields := st.classes[classId];
      if fieldId in fields then ReportErrorSpec(st, MultipleDecl)
      else st.(classes := st.classes[classId := fields[fieldId := kind]])
    else
      st.(classes := st.classes[classId := map[fieldId := kind]])
  }

  /** The name `add_class_instance` declares for every field: `{var_id}--{class_id}`. */
  function InstanceName(varId: string, classId: string): string {
    varId + "--" + classId
  }

  /** A listing of all the names of a map, each once: the order a `HashMap` yields them
      in. */
  predicate Enumerates<V>(order: seq<string>, m: map<string, V>) {
    (forall i, j :: 0 <= i < j < |order| ==> order[i] != order[j])
    && (forall n :: n in order ==> n in m)
    && (forall n :: n in m ==> n in order)
  }

  /** `add_entry` once per kind, under one name. */
  function AddEntries(st: NameState, id: string, kinds: seq<SymbolKind>): (r: NameState)
    ensures r.scope == st.scope && r.classes == st.classes
    ensures st.error ==> r.error
    decreases |kinds|
  {
    if kinds == [] then st else AddEntries(AddEntrySpec(st, id, kinds[0]), id, kinds[1..])
  }

  /** The field kinds of a class map, in the given order. */
  function FieldKinds(fields: map<string, SymbolKind>, order: seq<string>): (r: seq<SymbolKind>)
    requires forall n :: n in order ==> n in fields
    ensures |r| == |order|
    ensures forall i :: 0 <= i < |order| ==> r[i] == fields[order[i]]
  {
    if order == [] then [] else [fields[order[0]]] + FieldKinds(fields, order[1..])
  }

  /** `add_class_instance`: an unknown class reports UndefinedDecl; a known one declares
      `{var_id}--{class_id}` once per field, in the order `order` lists the fields. */
  function AddClassInstanceSpec(st: NameState, classId: string, varId: string, order: seq<string>): NameState
    requires classId in st.classes ==> Enumerates(order, st.classes[classId])
  {
    if classId in st.classes then AddEntries(st, InstanceName(varId, classId), FieldKinds(st.classes[classId], order))
    else ReportErrorSpec(st, UndefinedDecl)
  }

  /** `remove_scope`: exactly the entries at depth `s` are dropped. */
  function RemoveScopeSpec(st: NameState, s: nat): (r: NameState)
    ensures r.scope == st.scope && r.classes == st.classes && r.error == st.error && r.errors == st.errors
    ensures forall k :: k in r.table <==> k in st.table && k.scope != s
    ensures forall k :: k in r.table ==> r.table[k] == st.table[k]
  {
    st.(table := map k | k in st.table && k.scope != s :: st.table[k])
  }

  /** The keys `find_entry` tries, in order: depths scope-1 down to 0. */
  function KeysBelow(id: string, scope: nat): (r: seq<SymbolKey>)
    ensures |r| == scope
    ensures forall i :: 0 <= i < scope ==> r[i] == SymbolKey(id, scope - 1 - i)
  {
    if scope == 0 then [] else [SymbolKey(id, scope - 1)] + KeysBelow(id, scope - 1)
  }

  /** The entry of the first key present in the table. */
  function FirstHit(table: map<SymbolKey, SymbolKind>, keys: seq<SymbolKey>): Option<SymbolKind>
    decreases |keys|
  {
    if keys == [] then None
    else if keys[0] in table then Some(table[keys[0]])
    else FirstHit(table, keys[1..])
  }

  /** What a lookup returns, and the state after it. */
  datatype Found = Found(kind: Option<SymbolKind>, st: NameState)

  /** `find_entry`: the first hit among the keys below the current depth; a miss reports
      UndefinedDecl. */
  function FindEntrySpec(st: NameState, id: string): (r: Found)
    ensures r.kind.Some? ==> r.st == st
    ensures r.kind.None? ==> r.st == ReportErrorSpec(st, UndefinedDecl)
  {
    var hit := FirstHit(st.table, KeysBelow(id, st.scope));
    if hit.Some? then Found(hit, st) else Found(None, ReportErrorSpec(st, UndefinedDecl))
  }

  lemma {:induction false} FirstHitBelow(table: map<SymbolKey, SymbolKind>, id: string, n: nat)
    ensures FirstHit(table, KeysBelow(id, n)).Some? <==> exists d :: 0 <= d < n && SymbolKey(id, d) in table
    ensures forall d :: 0 <= d < n && SymbolKey(id, d) in table && (forall e :: d < e < n ==> SymbolKey(id, e) !in table) ==>
              FirstHit(table, KeysBelow(id, n)) == Some(table[SymbolKey(id, d)])
  {
    if n > 0 {
      var keys := KeysBelow(id, n);
      assert keys[0] == SymbolKey(id, n - 1);
      assert keys[1..] == KeysBelow(id, n - 1);
      FirstHitBelow(table, id, n - 1);
      if SymbolKey(id, n - 1) !in table {
        assert FirstHit(table, keys) == FirstHit(table, KeysBelow(id, n - 1));
      }
    }
  }

  /** `find_entry` succeeds exactly when the name is declared at some depth below the
      current one, and then returns the innermost such declaration. */
  lemma FindEntryInnermost(st: NameState, id: string)
    ensures FindEntrySpec(st, id).kind.Some? <==> exists d :: 0 <= d < st.scope && SymbolKey(id, d) in st.table
    ensures forall d :: 0 <= d < st.scope && SymbolKey(id, d) in st.table && (forall e :: d < e < st.scope ==> SymbolKey(id, e) !in st.table) ==>
              FindEntrySpec(st, id).kind == Some(st.table[SymbolKey(id, d)])
  {
    FirstHitBelow(st.table, id, st.scope);
  }

  /** A declaration at the current depth is never found: the lookup starts one level out. */
  lemma FindEntrySkipsCurrentDepth(st: NameState, id: string, kind: SymbolKind)
    requires !IsVoid(kind) && SymbolKey(id, st.scope) !in st.table
    requires forall d :: 0 <= d < st.scope ==> SymbolKey(id, d) !in st.table
    ensures FindEntrySpec(AddEntrySpec(st, id, kind), id).kind == None
  {
    var st1 := AddEntrySpec(st, id, kind);
    FirstHitBelow(st1.table, id, st1.scope);
  }

  /** At depth 0 every lookup fails and reports UndefinedDecl. */
  lemma FindEntryAtGlobalDepth(st: NameState, id: string)
    requires st.scope == 0
    ensures FindEntrySpec(st, id) == Found(None, ReportErrorSpec(st, UndefinedDecl))
  {
    assert KeysBelow(id, 0) == [];
  }

  /** Declaring a fresh non-void name and looking it up from one level deeper finds it. */
  lemma AddEntryThenFind(st: NameState, id: string, kind: SymbolKind)
    requires !IsVoid(kind) && SymbolKey(id, st.scope) !in st.table
    ensures var st1 := AddEntrySpec(st, id, kind);
      FindEntrySpec(st1.(scope := st1.scope + 1), id) == Found(Some(kind), st1.(scope := st1.scope + 1))
  {
    var st1 := AddEntrySpec(st, id, kind);
    var st2 := st1.(scope := st1.scope + 1);
    assert KeysBelow(id, st2.scope)[0] == SymbolKey(id, st.scope);
  }

  /** A known class with two or more fields always ends in an error: every field is
      declared under the same name. */
  lemma {:induction false} AddEntriesRepeated(st: NameState, id: string, kinds: seq<SymbolKind>)
    requires |kinds| >= 2
    ensures AddEntries(st, id, kinds).error
    decreases |kinds|
  {
    var st1 := AddEntrySpec(st, id, kinds[0]);
    var st2 := AddEntrySpec(st1, id, kinds[1]);
    assert st2.error;
    if |kinds| == 2 {
      assert kinds[1..][1..] == [];
    } else {
      AddEntriesRepeated(st1, id, kinds[1..]);
    }
  }

  /** Only the instance name can be added by `add_class_instance`, and only at the current
      depth; an unknown class changes nothing but the diagnostics. */
  lemma {:induction false} AddEntriesOneKey(st: NameState, id: string, kinds: seq<SymbolKind>)
    ensures AddEntries(st, id, kinds).table.Keys <= st.table.Keys + {SymbolKey(id, st.scope)}
    ensures forall k :: k in st.table ==> k in AddEntries(st, id, kinds).table && AddEntries(st, id, kinds).table[k] == st.table[k]
    decreases |kinds|
  {
    if kinds != [] {
      AddEntriesOneKey(AddEntrySpec(st, id, kinds[0]), id, kinds[1..]);
    }
  }

  lemma AddClassInstanceEffect(st: NameState, classId: string, varId: string, order: seq<string>)
    requires classId in st.classes ==> Enumerates(order, st.classes[classId])
    ensures classId !in st.classes ==> AddClassInstanceSpec(st, classId, varId, order) == ReportErrorSpec(st, UndefinedDecl)
    ensures AddClassInstanceSpec(st, classId, varId, order).table.Keys <= st.table.Keys + {SymbolKey(InstanceName(varId, classId), st.scope)}
    ensures classId in st.classes && |st.classes[classId]| >= 2 ==> AddClassInstanceSpec(st, classId, varId, order).error
  {
    if classId in st.classes {
      var kinds := FieldKinds(st.classes[classId], order);
      AddEntriesOneKey(st, InstanceName(varId, classId), kinds);
      if |st.classes[classId]| >= 2 {
        EnumerationSize(order, st.classes[classId]);
        AddEntriesRepeated(st, InstanceName(varId, classId), kinds);
      }
    }
  }

  lemma EnumerationSize<V>(order: seq<string>, m: map<string, V>)
    requires Enumerates(order, m)
    ensures |order| == |m|
  {
    var s := set n | n in order;
    assert s == m.Keys;
    DistinctCard(order);
  }

  lemma {:induction false} DistinctCard(order: seq<string>)
    requires forall i, j :: 0 <= i < j < |order| ==> order[i] != order[j]
    ensures |set n | n in order| == |order|
  {
    if order != [] {
      var rest := order[1..];
      DistinctCard(rest);
      assert (set n | n in order) == (set n | n in rest) + {order[0]};
      assert order[0] !in rest;
    }
  }

  /** `NamedUnparser`: the table, the class maps, the depth and the flag as fields. */
  class NamedUnparser {
    var scope: nat
    var table: map<SymbolKey, SymbolKind>
    var classes: map<string, map<string, SymbolKind>>
    var error: bool
    var errors: seq<NameError>

    function State(): NameState
      reads this
    {
      NameState(scope, table, classes, error, errors)
    }

    constructor ()
      ensures State() == InitState
    {
      scope := 0;
      table := map[];
      classes := map[];
      error := false;
      errors := [];
    }

    method ReportError(e: NameError)
      modifies this
      ensures State() == ReportErrorSpec(old(State()), e)
    {
      errors := errors + [e];
      error := true;
    }

    method AddEntry(id: string, kind: SymbolKind)
      modifies this
      ensures State() == AddEntrySpec(old(State()), id, kind)
    {
      var key := SymbolKey(id, scope);
      var err := false;
      if kind.Variable? && kind.varType.kind == Prim(Void) {
        ReportError(BadType);
        err := true;
      }
      if key in table {
        ReportError(MultipleDecl);
        err := true;
      }
      if !err {
        table := table[key := kind];
      }
    }

    method AddClassEntry(classId: string, fieldId: string, kind: SymbolKind)
      modifies this
      ensures State() == AddClassEntrySpec(old(State()), classId, fieldId, kind)
    {
      if classId in classes {
        var fields := classes[classId];
        if fieldId in fields {
          ReportError(MultipleDecl);
        } else {
          classes := classes[classId := fields[fieldId := kind]];
        }
      } else {
        var newClass := map[fieldId := kind];
        classes := classes[classId := newClass];
      }
    }

    method AddClassInstance(classId: string, varId: string, order: seq<string>)
      requires classId in classes ==> Enumerates(order, classes[classId])
      modifies this
      ensures State() == AddClassInstanceSpec(old(State()), classId, varId, order)
    {
      if classId in classes {
        var kinds := FieldKinds(classes[classId], order);
        var name := InstanceName(varId, classId);
        for i := 0 to |kinds|
          invariant AddEntries(State(), name, kinds[i..]) == AddEntries(old(State()), name, kinds)
        {
          assert kinds[i..][0] == kinds[i] && kinds[i..][1..] == kinds[i + 1..];
          AddEntry(name, kinds[i]);
        }
        assert kinds[|kinds|..] == [];
      } else {
        ReportError(UndefinedDecl);
      }
    }

    method RemoveScope(s: nat)
      modifies this
      ensures State() == RemoveScopeSpec(old(State()), s)
    {
      table := map k | k in table && k.scope != s :: table[k];
    }

    /** The two loops of `find_entry`: collect the keys to try, then scan them. */
    method FindEntry(id: Id) returns (r: Option<SymbolKind>)
      modifies this
      ensures r == FindEntrySpec(old(State()), id.name).kind
      ensures State() == FindEntrySpec(old(State()), id.name).st
    {
      var keyCheck: seq<SymbolKey> := [];
      var s := scope;
      while s > 0
        invariant 0 <= s <= scope
        invariant |keyCheck| == scope - s
        invariant forall j :: 0 <= j < |keyCheck| ==> keyCheck[j] == SymbolKey(id.name, scope - 1 - j)
      {
        s := s - 1;
        keyCheck := keyCheck + [SymbolKey(id.name, s)];
      }
      assert keyCheck == KeysBelow(id.name, scope);
      var i := 0;
      while i < |keyCheck|
        invariant 0 <= i <= |keyCheck|
        invariant FirstHit(table, keyCheck[i..]) == FirstHit(table, keyCheck)
      {
        assert keyCheck[i..][0] == keyCheck[i] && keyCheck[i..][1..] == keyCheck[i + 1..];
        if keyCheck[i] in table {
          return Some(table[keyCheck[i]]);
        }
        i := i + 1;
      }
      assert keyCheck[i..] == [];
      ReportError(UndefinedDecl);
      r := None;
    }
  }
}
