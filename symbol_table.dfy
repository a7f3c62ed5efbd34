/**
 * The symbol table of one file version: definitions, name usages, import
 * bindings, call sites and function return annotations, each a Python dict.
 */
module SymbolTables {
  import opened Wrappers
  import opened PyDict

  /** The `def_type` strings the extractor records. */
  datatype DefKind = ImportKind | FunctionKind | AsyncFunctionKind | ClassKind | VariableKind {
    function Name(): string {
      match this
      case ImportKind => "import"
      case FunctionKind => "function"
      case AsyncFunctionKind => "async_function"
      case ClassKind => "class"
      case VariableKind => "variable"
    }
  }

  /** `(def_type, line_number, scope)` */
  datatype Definition = Definition(kind: DefKind, line: int, scope: string)

  /** The contents of a symbol table as a value. */
  datatype Tables = Tables(
    definitions: Dict<string, Definition>,
    usages: Dict<string, seq<int>>,
    imports: Dict<string, string>,
    calls: Dict<string, seq<int>>,
    signatures: Dict<string, Option<string>>)

  /** Every line list that is stored holds at least one line. */
  ghost predicate NonEmptyLists(d: Dict<string, seq<int>>) {
    forall k :: k in d.entries ==> |d.entries[k]| > 0
  }

  ghost predicate WellFormed(t: Tables) {
    && t.definitions.Valid() && t.usages.Valid() && t.imports.Valid()
    && t.calls.Valid() && t.signatures.Valid()
    && NonEmptyLists(t.usages) && NonEmptyLists(t.calls)
  }

  function EmptyTables(): (t: Tables)
    ensures WellFormed(t)
    ensures t.definitions.keys == [] && t.usages.keys == [] && t.imports.keys == []
    ensures t.calls.keys == [] && t.signatures.keys == []
  {
    Tables(Empty(), Empty(), Empty(), Empty(), Empty())
  }

  /** The lines stored under `k`, or none. */
  function LinesOf(d: Dict<string, seq<int>>, k: string): seq<int> {
    if d.Has(k) then d.entries[k] else []
  }

  /** Append `line` to the list under `k`, creating a one-element list when `k` is absent. */
  function Record(d: Dict<string, seq<int>>, k: string, line: int): (r: Dict<string, seq<int>>)
    ensures d.Valid() ==> r.Valid()
    ensures NonEmptyLists(d) ==> NonEmptyLists(r)
    ensures r.Has(k) && r.entries[k] == LinesOf(d, k) + [line]
    ensures forall k' :: k' != k ==> LinesOf(r, k') == LinesOf(d, k') && (r.Has(k') <==> d.Has(k'))
  {
    d.Put(k, LinesOf(d, k) + [line])
  }

  /** `add_definition`: the last definition of a name wins. */
  function WithDefinition(t: Tables, name: string, kind: DefKind, line: int, scope: string): (r: Tables)
    ensures WellFormed(t) ==> WellFormed(r)
    ensures r.definitions.Has(name) && r.definitions.entries[name] == Definition(kind, line, scope)
    ensures forall n :: n != name && t.definitions.Has(n) ==> r.definitions.Has(n) && r.definitions.entries[n] == t.definitions.entries[n]
    ensures forall n :: r.definitions.Has(n) <==> n == name || t.definitions.Has(n)
    ensures r.usages == t.usages && r.imports == t.imports && r.calls == t.calls && r.signatures == t.signatures
  {
    t.(definitions := t.definitions.Put(name, Definition(kind, line, scope)))
  }

  /** `add_usage`: the line goes at the end of the name's list. */
  function WithUsage(t: Tables, name: string, line: int): (r: Tables)
    ensures WellFormed(t) ==> WellFormed(r)
    ensures r.usages.Has(name) && r.usages.entries[name] == LinesOf(t.usages, name) + [line]
    ensures forall n :: n != name ==> LinesOf(r.usages, n) == LinesOf(t.usages, n) && (r.usages.Has(n) <==> t.usages.Has(n))
    ensures r.definitions == t.definitions && r.imports == t.imports && r.calls == t.calls && r.signatures == t.signatures
  {
    t.(usages := Record(t.usages, name, line))
  }

  /** `add_import`: the last binding of a name wins. */
  function WithImport(t: Tables, symbol: string, source: string): (r: Tables)
    ensures WellFormed(t) ==> WellFormed(r)
    ensures r.imports.Has(symbol) && r.imports.entries[symbol] == source
    ensures forall n :: n != symbol && t.imports.Has(n) ==> r.imports.Has(n) && r.imports.entries[n] == t.imports.entries[n]
    ensures forall n :: r.imports.Has(n) <==> n == symbol || t.imports.Has(n)
    ensures r.definitions == t.definitions && r.usages == t.usages && r.calls == t.calls && r.signatures == t.signatures
  {
    t.(imports := t.imports.Put(symbol, source))
  }

  /** `add_function_call`: the line goes at the end of the callee's list. */
  function WithCall(t: Tables, name: string, line: int): (r: Tables)
    ensures WellFormed(t) ==> WellFormed(r)
    ensures r.calls.Has(name) && r.calls.entries[name] == LinesOf(t.calls, name) + [line]
    ensures forall n :: n != name ==> LinesOf(r.calls, n) == LinesOf(t.calls, n) && (r.calls.Has(n) <==> t.calls.Has(n))
    ensures r.definitions == t.definitions && r.usages == t.usages && r.imports == t.imports && r.signatures == t.signatures
  {
    t.(calls := Record(t.calls, name, line))
  }

  /** `add_function_signature`: the last annotation recorded for a name wins. */
  function WithSignature(t: Tables, name: string, returnType: Option<string>): (r: Tables)
    ensures WellFormed(t) ==> WellFormed(r)
    ensures r.signatures.Has(name) && r.signatures.entries[name] == returnType
    ensures forall n :: n != name && t.signatures.Has(n) ==> r.signatures.Has(n) && r.signatures.entries[n] == t.signatures.entries[n]
    ensures forall n :: r.signatures.Has(n) <==> n == name || t.signatures.Has(n)
    ensures r.definitions == t.definitions && r.usages == t.usages && r.imports == t.imports && r.calls == t.calls
  {
    t.(signatures := t.signatures.Put(name, returnType))
  }

  /** The mutable symbol table the extractor fills in place. */
  class SymbolTable {
    var definitions: Dict<string, Definition>
    var usages: Dict<string, seq<int>>
    var imports: Dict<string, string>
    var functionCalls: Dict<string, seq<int>>
    var functionSignatures: Dict<string, Option<string>>

    function Value(): Tables
      reads this
    {
      Tables(definitions, usages, imports, functionCalls, functionSignatures)
    }

    ghost predicate Valid()
      reads this
    {
      WellFormed(Value())
    }

    constructor ()
      ensures Valid() && Value() == EmptyTables()
    {
      definitions := Empty();
      usages := Empty();
      imports := Empty();
      functionCalls := Empty();
      functionSignatures := Empty();
    }

    /** `add_definition` */
    method AddDefinition(name: string, kind: DefKind, line: int, scope: string)
      requires Valid()
      modifies this
      ensures Valid() && Value() == WithDefinition(old(Value()), name, kind, line, scope)
    {
      definitions := definitions.Put(name, Definition(kind, line, scope));
    }

    /** `add_usage`: create the name's list when missing, then append the line. */
    method AddUsage(name: string, line: int)
      requires Valid()
      modifies this
      ensures Valid() && Value() == WithUsage(old(Value()), name, line)
    {
      if !usages.Has(name) {
        usages := usages.Put(name, []);
      }
      usages := usages.Put(name, usages.entries[name] + [line]);
      assert usages == Record(old(usages), name, line);
    }

    /** `add_import` */
    method AddImport(symbol: string, source: string)
      requires Valid()
      modifies this
      ensures Valid() && Value() == WithImport(old(Value()), symbol, source)
    {
      imports := imports.Put(symbol, source);
    }

    /** `add_function_call`: create the name's list when missing, then append the line. */
    method AddFunctionCall(name: string, line: int)
      requires Valid()
      modifies this
      ensures Valid() && Value() == WithCall(old(Value()), name, line)
    {
      if !functionCalls.Has(name) {
        functionCalls := functionCalls.Put(name, []);
      }
      functionCalls := functionCalls.Put(name, functionCalls.entries[name] + [line]);
      assert functionCalls == Record(old(functionCalls), name, line);
    }

    /** `add_function_signature` */
    method AddFunctionSignature(name: string, returnType: Option<string>)
      requires Valid()
      modifies this
      ensures Valid() && Value() == WithSignature(old(Value()), name, returnType)
    {
      functionSignatures := functionSignatures.Put(name, returnType);
    }
  }
}
