/**
 * `PythonSymbolExtractor` and `build_symbol_table`: a visitor that walks a
 * parsed module and fills a `SymbolTable`, tracking the enclosing scope.
 * `VisitNode`/`VisitNodes` say what a walk records; the visitor class is
 * proved to record exactly that.
 */
module Extraction {
  import opened Wrappers
  import opened Text
  import opened PyDict
  import opened PythonAst
  import opened SymbolTables

  /** The name an alias binds: the `as` name when given and non-empty, else the imported name. */
  function BoundName(a: Alias): string {
    if a.asname.Some? && a.asname.value != "" then a.asname.value else a.name
  }

  /**
   * The source recorded for an alias: the plain name for `import`
   * (`fromModule` is None) and `<module>.<name>` for `from … import`.
   */
  function SourceOf(fromModule: Option<string>, a: Alias): string {
    match fromModule
    case None => a.name
    case Some(m) => m + "." + a.name
  }

  /** A scope the extractor can be in. */
  predicate ScopeOk(scope: string) {
    scope == "module" || StartsWith(scope, "function:") || StartsWith(scope, "class:")
  }

  /** Every definition records a scope the extractor can be in. */
  ghost predicate ScopesOk(t: Tables) {
    forall k :: t.definitions.Has(k) ==> ScopeOk(t.definitions.entries[k].scope)
  }

  /** Every imported name and every name with a recorded signature is also defined. */
  ghost predicate ImportsAndSignaturesDefined(t: Tables) {
    && (forall k :: t.imports.Has(k) ==> t.definitions.Has(k))
    && (forall k :: t.signatures.Has(k) ==> t.definitions.Has(k))
  }

  /** No defined name is forgotten between `t` and `r`. */
  ghost predicate KeepsDefinitions(t: Tables, r: Tables) {
    forall k :: t.definitions.Has(k) ==> r.definitions.Has(k)
  }

  /** The invariants a walk keeps. */
  ghost predicate Invariant(t: Tables) {
    WellFormed(t) && ImportsAndSignaturesDefined(t) && ScopesOk(t)
  }

  lemma EmptyTablesInvariant()
    ensures Invariant(EmptyTables()) && ScopeOk("module")
  {
  }

  lemma DefinitionKeepsInvariant(t: Tables, name: string, kind: DefKind, line: int, scope: string)
    ensures Invariant(t) && ScopeOk(scope) ==> Invariant(WithDefinition(t, name, kind, line, scope))
  {
  }

  lemma BindingKeepsInvariant(t: Tables, name: string, source: string, line: int, scope: string)
    ensures Invariant(t) && ScopeOk(scope) ==> Invariant(WithDefinition(WithImport(t, name, source), name, ImportKind, line, scope))
  {
  }

  lemma SignatureKeepsInvariant(t: Tables, name: string, returnType: Option<string>)
    requires t.definitions.Has(name)
    ensures Invariant(t) ==> Invariant(WithSignature(t, name, returnType))
  {
  }

  lemma UsageKeepsInvariant(t: Tables, name: string, line: int)
    ensures Invariant(t) ==> Invariant(WithUsage(t, name, line))
  {
  }

  lemma CallKeepsInvariant(t: Tables, name: string, line: int)
    ensures Invariant(t) ==> Invariant(WithCall(t, name, line))
  {
  }

  /** The aliases of one import statement, bound left to right: an import binding, then an `import` definition, per alias. */
  function BindImports(t: Tables, scope: string, line: int, fromModule: Option<string>, names: seq<Alias>): (r: Tables)
    ensures Invariant(t) && ScopeOk(scope) ==> Invariant(r)
    ensures KeepsDefinitions(t, r)
    ensures r.usages == t.usages && r.calls == t.calls && r.signatures == t.signatures
    decreases |names|
  {
    if names == [] then t
    else
      var a := names[|names| - 1];
      var t' := BindImports(t, scope, line, fromModule, names[..|names| - 1]);
      BindingKeepsInvariant(t', BoundName(a), SourceOf(fromModule, a), line, scope);
      WithDefinition(WithImport(t', BoundName(a), SourceOf(fromModule, a)), BoundName(a), ImportKind, line, scope)
  }

  /** The `variable` definitions of an assignment: one per target that is a plain name. */
  function DefineTargets(t: Tables, scope: string, line: int, targets: seq<Node>): (r: Tables)
    ensures Invariant(t) && ScopeOk(scope) ==> Invariant(r)
    ensures KeepsDefinitions(t, r)
    ensures r.usages == t.usages && r.imports == t.imports && r.calls == t.calls && r.signatures == t.signatures
    decreases |targets|
  {
    if targets == [] then t
    else
      var t' := DefineTargets(t, scope, line, targets[..|targets| - 1]);
      match targets[|targets| - 1]
      case Name(_, id, _) =>
        DefinitionKeepsInvariant(t', id, VariableKind, line, scope);
        WithDefinition(t', id, VariableKind, line, scope)
      case _ => t'
  }

  /** The callee name a call records: the name called, or the attribute of a method call. */
  function CalleeName(func: Node): Option<string> {
    match func
    case Name(_, id, _) => Some(id)
    case Attribute(_, _, attr) => Some(attr)
    case _ => None
  }

  /** What visiting `n` in scope `scope` records in `t`. */
  function VisitNode(t: Tables, scope: string, n: Node): (r: Tables)
    ensures Invariant(t) && ScopeOk(scope) ==> Invariant(r)
    ensures KeepsDefinitions(t, r)
    decreases n, 1
  {
    match n
    case Import(line, names) => BindImports(t, scope, line, None, names)
    case ImportFrom(line, m, names) => BindImports(t, scope, line, Some(m.GetOr("")), names)
    case FunctionDef(line, name, ret, body) =>
      DefinitionKeepsInvariant(t, name, FunctionKind, line, scope);
      SignatureKeepsInvariant(WithDefinition(t, name, FunctionKind, line, scope), name, ret);
      var t' := WithSignature(WithDefinition(t, name, FunctionKind, line, scope), name, ret);
      assert ScopeOk("function:" + name) by { assert ("function:" + name)[..9] == "function:"; }
      VisitNodes(t', "function:" + name, body)
    case AsyncFunctionDef(line, name, ret, body) =>
      DefinitionKeepsInvariant(t, name, AsyncFunctionKind, line, scope);
      SignatureKeepsInvariant(WithDefinition(t, name, AsyncFunctionKind, line, scope), name, ret);
      var t' := WithSignature(WithDefinition(t, name, AsyncFunctionKind, line, scope), name, ret);
      assert ScopeOk("function:" + name) by { assert ("function:" + name)[..9] == "function:"; }
      VisitNodes(t', "function:" + name, body)
    case ClassDef(line, name, body) =>
      DefinitionKeepsInvariant(t, name, ClassKind, line, scope);
      var t' := WithDefinition(t, name, ClassKind, line, scope);
      assert ScopeOk("class:" + name) by { assert ("class:" + name)[..6] == "class:"; }
      VisitNodes(t', "class:" + name, body)
    case Assign(line, targets, value) =>
      VisitNode(VisitNodes(DefineTargets(t, scope, line, targets), scope, targets), scope, value)
    case AnnAssign(line, target, annotation, rhs) =>
      var t1 :=
        if target.Name? then
          DefinitionKeepsInvariant(t, target.id, VariableKind, line, scope);
          WithDefinition(t, target.id, VariableKind, line, scope)
        else t;
      var t2 := VisitNode(VisitNode(t1, scope, target), scope, annotation);
      (match rhs
       case None => t2
       case Some(v) => VisitNode(t2, scope, v))
    case Name(line, id, isLoad) =>
      UsageKeepsInvariant(t, id, line);
      if isLoad then WithUsage(t, id, line) else t
    case Attribute(_, value, _) =>
      VisitNode(t, scope, value)
    case Call(line, func, args) =>
      var t1 := match CalleeName(func) case Some(callee) => WithCall(t, callee, line) case None => t;
      CallKeepsInvariant(t, CalleeName(func).GetOr(""), line);
      VisitNodes(VisitNode(t1, scope, func), scope, args)
    case Other(children) =>
      VisitNodes(t, scope, children)
  }

  /** What visiting the nodes `ns` in order records in `t`. */
  function VisitNodes(t: Tables, scope: string, ns: seq<Node>): (r: Tables)
    ensures Invariant(t) && ScopeOk(scope) ==> Invariant(r)
    ensures KeepsDefinitions(t, r)
    decreases ns, 0
  {
    if ns == [] then t
    else VisitNode(VisitNodes(t, scope, ns[..|ns| - 1]), scope, ns[|ns| - 1])
  }

  /** The alias at index `i`, when no later alias binds the same name, decides that name's import and definition. */
  lemma {:induction false} ImportBindingWins(t: Tables, scope: string, line: int, fromModule: Option<string>, names: seq<Alias>, i: int)
    requires 0 <= i < |names|
    requires forall j :: i < j < |names| ==> BoundName(names[j]) != BoundName(names[i])
    ensures var r := BindImports(t, scope, line, fromModule, names);
      && r.imports.Has(BoundName(names[i]))
      && r.imports.entries[BoundName(names[i])] == SourceOf(fromModule, names[i])
      && r.definitions.Has(BoundName(names[i]))
      && r.definitions.entries[BoundName(names[i])] == Definition(ImportKind, line, scope)
    decreases |names|
  {
    if i < |names| - 1 {
      var prefix := names[..|names| - 1];
      ImportBindingWins(t, scope, line, fromModule, prefix, i);
    }
  }

  /** A name no alias binds keeps its import and its definition. */
  lemma {:induction false} ImportBindingOthers(t: Tables, scope: string, line: int, fromModule: Option<string>, names: seq<Alias>, k: string)
    requires forall j :: 0 <= j < |names| ==> BoundName(names[j]) != k
    ensures var r := BindImports(t, scope, line, fromModule, names);
      && (r.imports.Has(k) <==> t.imports.Has(k))
      && (t.imports.Has(k) ==> r.imports.entries[k] == t.imports.entries[k])
      && (r.definitions.Has(k) <==> t.definitions.Has(k))
      && (t.definitions.Has(k) ==> r.definitions.entries[k] == t.definitions.entries[k])
    decreases |names|
  {
    if names != [] {
      ImportBindingOthers(t, scope, line, fromModule, names[..|names| - 1], k);
    }
  }

  /**
   * Definitions are not checked for consistency with imports: assigning to
   * an imported name turns its definition into a variable while the import
   * binding stays.
   */
  lemma ImportShadowedByAssignment()
    ensures var t := VisitNodes(EmptyTables(), "module",
      [Import(1, [Alias("os", None)]), Assign(2, [Name(2, "os", false)], Name(2, "path", true))]);
      && t.imports.Has("os") && t.imports.entries["os"] == "os"
      && t.definitions.Has("os") && t.definitions.entries["os"] == Definition(VariableKind, 2, "module")
  {
    var t0 := EmptyTables();
    var imp := Import(1, [Alias("os", None)]);
    var asg := Assign(2, [Name(2, "os", false)], Name(2, "path", true));
    ImportBindingWins(t0, "module", 1, None, [Alias("os", None)], 0);
    var t1 := VisitNode(t0, "module", imp);
    AssignmentDefinesVariable(t1, "module", 2, "os", Name(2, "path", true));
    assert [imp, asg][..1] == [imp];
    assert VisitNodes(t0, "module", [imp]) == t1;
  }

  /** `name = value`, where `value` defines nothing: `name` becomes a variable and the import bindings stay. */
  lemma AssignmentDefinesVariable(t: Tables, scope: string, line: int, name: string, value: Node)
    requires value.Name?
    ensures var r := VisitNode(t, scope, Assign(line, [Name(line, name, false)], value));
      && r.imports == t.imports
      && r.definitions.Has(name) && r.definitions.entries[name] == Definition(VariableKind, line, scope)
  {
    var target := Name(line, name, false);
    assert [target][..|[target]| - 1] == [];
    assert DefineTargets(t, scope, line, []) == t;
    var t2 := DefineTargets(t, scope, line, [target]);
    assert t2 == WithDefinition(t, name, VariableKind, line, scope);
    assert VisitNodes(t2, scope, [target]) == VisitNode(t2, scope, target) == t2;
  }

  /** The index of the last `c` in `s`, or -1 when there is none. */
  function RFind(s: string, c: char): (i: int)
    ensures -1 <= i < |s|
    ensures i >= 0 ==> s[i] == c
    ensures forall j :: i < j < |s| ==> s[j] != c
    decreases |s|
  {
    if s == [] then -1
    else if s[|s| - 1] == c then |s| - 1
    else RFind(s[..|s| - 1], c)
  }

  lemma NotAfter(s: string, i: int, c: char)
    requires -1 <= i < |s|
    requires forall j :: i < j < |s| ==> s[j] != c
    ensures c !in s[i + 1..]
  {
    var rest := s[i + 1..];
    forall j | 0 <= j < |rest|
      ensures rest[j] != c
    {
      assert rest[j] == s[i + 1 + j];
    }
  }

  /**
   * `PurePath(path).name`: the last component of the path, where empty
   * components (from repeated or trailing `/`) and `.` components do not
   * count; "" when no component is left.
   */
  function BaseName(path: string): (name: string)
    ensures '/' !in name && name != "."
    ensures name != "" ==> Contains(path, name)
    decreases |path|
  {
    var i := RFind(path, '/');
    NotAfter(path, i, '/');
    var last := path[i + 1..];
    if last != "" && last != "." then
      ContainsTail(path, i);
      last
    else if i < 0 then ""
    else
      var name := BaseName(path[..i]);
      ContainsInPrefix(path, i, name);
      name
  }

  /** What follows index `i` occurs in the string. */
  lemma ContainsTail(s: string, i: int)
    requires -1 <= i < |s|
    ensures Contains(s, s[i + 1..])
  {
    assert s == s[..i + 1] + s[i + 1..] + "";
    ContainsInfix(s[..i + 1], s[i + 1..], "");
  }

  /** An occurrence in a prefix is an occurrence in the string. */
  lemma ContainsInPrefix(s: string, i: int, sub: string)
    requires 0 <= i <= |s|
    ensures sub != "" && Contains(s[..i], sub) ==> Contains(s, sub)
  {
    if sub != "" && Contains(s[..i], sub) {
      assert s == s[..i] + s[i..];
      ContainsAppend(s[..i], s[i..], sub);
    }
  }

  /** A trailing `/` or `/.` does not change the file name. */
  lemma BaseNameIgnoresTrailing(path: string)
    ensures BaseName(path + "/") == BaseName(path)
    ensures BaseName(path + "/.") == BaseName(path)
  {
    var p1 := path + "/";
    assert RFind(p1, '/') == |path|;
    assert p1[|path| + 1..] == "" && p1[..|path|] == path;
    var p2 := path + "/.";
    assert p2[..|p2| - 1] == p1;
    assert RFind(p2, '/') == |path|;
    assert p2[|path| + 1..] == "." && p2[..|path|] == path;
  }

  /** The file name of `dir/name` is `name` when `name` is a proper component. */
  lemma BaseNameOfComponent(dir: string, name: string)
    requires '/' !in name && name != "" && name != "."
    ensures BaseName(dir + "/" + name) == name
  {
    var p := dir + "/" + name;
    assert p[|dir|] == '/';
    assert p[|dir| + 1..] == name;
    assert RFind(p, '/') == |dir|;
  }

  /** `PurePath(path).suffix`: from the last `.` of the name, unless that dot starts or ends the name. */
  function Suffix(path: string): (s: string)
    ensures s != "" ==> EndsWith(BaseName(path), s) && |s| >= 2 && s[0] == '.' && '.' !in s[1..]
    ensures s != "" ==> |s| < |BaseName(path)|
  {
    var name := BaseName(path);
    var i := RFind(name, '.');
    if 0 < i < |name| - 1 then
      NotAfter(name, i, '.');
      assert name[i..][1..] == name[i + 1..];
      name[i..]
    else ""
  }

  lemma LowerCharFixes(c: char, d: char)
    requires LowerChar(c) == d
    requires !('a' <= d <= 'z')
    ensures c == d
  {
  }

  /**
   * `build_symbol_table` accepts a path exactly when its file name is longer
   * than `.py` and ends in `.py` in any letter case; a file named just `.py`
   * has no suffix.
   */
  lemma PythonSuffix(path: string)
    ensures Lower(Suffix(path)) == ".py" <==>
      (|BaseName(path)| > 3 && EndsWith(Lower(BaseName(path)), ".py"))
  {
    var name := BaseName(path);
    var n := |name|;
    var s := Suffix(path);
    if Lower(s) == ".py" {
      assert |s| == 3;
      assert s == name[n - 3..];
      forall k | 0 <= k < 3
        ensures Lower(name)[n - 3..][k] == Lower(s)[k]
      {
      }
    }
    if n > 3 && EndsWith(Lower(name), ".py") {
      assert Lower(name)[n - 3] == '.';
      LowerCharFixes(name[n - 3], '.');
      assert name[n - 2] != '.' by { assert LowerChar(name[n - 2]) == 'p'; }
      assert name[n - 1] != '.' by { assert LowerChar(name[n - 1]) == 'y'; }
      assert RFind(name, '.') == n - 3;
      assert s == name[n - 3..];
      assert Lower(s) == ".py" by {
        forall k | 0 <= k < 3
          ensures Lower(s)[k] == ".py"[k]
        {
          assert Lower(s)[k] == LowerChar(name[n - 3 + k]) == Lower(name)[n - 3 + k];
        }
      }
    }
  }

  /**
   * `build_symbol_table`: no table for a non-Python path or for content the
   * parser rejects; otherwise the table a walk of the module records,
   * starting empty in scope `module`.
   */
  function SymbolTableOf(filePath: string, content: string, parse: Parser): (r: Option<Tables>)
    ensures r.Some? ==> Invariant(r.value)
    ensures r.Some? ==> Lower(Suffix(filePath)) == ".py" && parse(content).Some?
  {
    if Lower(Suffix(filePath)) != ".py" then None
    else match parse(content)
      case None => None
      case Some(body) =>
        EmptyTablesInvariant();
        Some(VisitNodes(EmptyTables(), "module", body))
  }

  /** `build_symbol_table` for a fixed path, as a function of the content. */
  function TableBuilder(filePath: string, parse: Parser): (build: string -> Option<Tables>)
    ensures forall content :: build(content) == SymbolTableOf(filePath, content, parse)
  {
    content => SymbolTableOf(filePath, content, parse)
  }

  /** The visitor: a symbol table it fills in place and the scope it is in. */
  class PythonSymbolExtractor {
    const symbolTable: SymbolTable
    var currentScope: string

    constructor ()
      ensures fresh(symbolTable) && symbolTable.Valid()
      ensures symbolTable.Value() == EmptyTables() && currentScope == "module"
    {
      symbolTable := new SymbolTable();
      currentScope := "module";
    }

    /** `visit_Import` / `visit_ImportFrom`: bind each alias in turn. */
    method BindAliases(line: int, fromModule: Option<string>, names: seq<Alias>)
      requires symbolTable.Valid()
      modifies symbolTable
      ensures symbolTable.Valid()
      ensures symbolTable.Value() == BindImports(old(symbolTable.Value()), currentScope, line, fromModule, names)
    {
      var i := 0;
      while i < |names|
        invariant 0 <= i <= |names|
        invariant symbolTable.Valid()
        invariant symbolTable.Value() == BindImports(old(symbolTable.Value()), currentScope, line, fromModule, names[..i])
      {
        assert names[..i + 1][..i] == names[..i];
        ghost var before := symbolTable.Value();
        var name := BoundName(names[i]);
        symbolTable.AddImport(name, SourceOf(fromModule, names[i]));
        symbolTable.AddDefinition(name, ImportKind, line, currentScope);
        assert symbolTable.Value() == WithDefinition(WithImport(before, name, SourceOf(fromModule, names[i])), name, ImportKind, line, currentScope);
        i := i + 1;
      }
      assert names[..|names|] == names;
    }

    /** `generic_visit` over one list field: visit each node in order. */
    method VisitAll(ns: seq<Node>)
      requires symbolTable.Valid()
      modifies this, symbolTable
      ensures symbolTable.Valid() && currentScope == old(currentScope)
      ensures symbolTable.Value() == VisitNodes(old(symbolTable.Value()), old(currentScope), ns)
      decreases ns, 0
    {
      var i := 0;
      while i < |ns|
        invariant 0 <= i <= |ns|
        invariant symbolTable.Valid() && currentScope == old(currentScope)
        invariant symbolTable.Value() == VisitNodes(old(symbolTable.Value()), old(currentScope), ns[..i])
      {
        assert ns[..i + 1][..i] == ns[..i];
        Visit(ns[i]);
        i := i + 1;
      }
      assert ns[..|ns|] == ns;
    }

    /** A function or class body: visited in `scope`, after which the previous scope is restored. */
    method VisitInScope(scope: string, body: seq<Node>)
      requires symbolTable.Valid()
      modifies this, symbolTable
      ensures symbolTable.Valid() && currentScope == old(currentScope)
      ensures symbolTable.Value() == VisitNodes(old(symbolTable.Value()), scope, body)
      decreases body, 1
    {
      var oldScope := currentScope;
      currentScope := scope;
      VisitAll(body);
      currentScope := oldScope;
    }

    /** `visit_Assign`: each target that is a plain name is defined as a variable at the statement's line. */
    method DefineAssignTargets(line: int, targets: seq<Node>)
      requires symbolTable.Valid()
      modifies symbolTable
      ensures symbolTable.Valid()
      ensures symbolTable.Value() == DefineTargets(old(symbolTable.Value()), currentScope, line, targets)
    {
      var i := 0;
      while i < |targets|
        invariant 0 <= i <= |targets|
        invariant symbolTable.Valid()
        invariant symbolTable.Value() == DefineTargets(old(symbolTable.Value()), currentScope, line, targets[..i])
      {
        assert targets[..i + 1][..i] == targets[..i];
        if targets[i].Name? {
          symbolTable.AddDefinition(targets[i].id, VariableKind, line, currentScope);
        }
        i := i + 1;
      }
      assert targets[..|targets|] == targets;
    }

    /** `visit_FunctionDef`, `visit_AsyncFunctionDef`, `visit_ClassDef`: define the name, then walk the body in the new scope. */
    method VisitDefinition(n: Node)
      requires n.FunctionDef? || n.AsyncFunctionDef? || n.ClassDef?
      requires symbolTable.Valid()
      modifies this, symbolTable
      ensures symbolTable.Valid() && currentScope == old(currentScope)
      ensures symbolTable.Value() == VisitNode(old(symbolTable.Value()), old(currentScope), n)
      decreases n, 0
    {
      match n
      case FunctionDef(line, name, ret, body) =>
        symbolTable.AddDefinition(name, FunctionKind, line, currentScope);
        symbolTable.AddFunctionSignature(name, ret);
        VisitInScope("function:" + name, body);
      case AsyncFunctionDef(line, name, ret, body) =>
        symbolTable.AddDefinition(name, AsyncFunctionKind, line, currentScope);
        symbolTable.AddFunctionSignature(name, ret);
        VisitInScope("function:" + name, body);
      case ClassDef(line, name, body) =>
        symbolTable.AddDefinition(name, ClassKind, line, currentScope);
        VisitInScope("class:" + name, body);
    }

    /** `visit_Assign`, `visit_AnnAssign`: define plain-name targets as variables, then walk the statement's children. */
    method VisitAssignment(n: Node)
      requires n.Assign? || n.AnnAssign?
      requires symbolTable.Valid()
      modifies this, symbolTable
      ensures symbolTable.Valid() && currentScope == old(currentScope)
      ensures symbolTable.Value() == VisitNode(old(symbolTable.Value()), old(currentScope), n)
      decreases n, 0
    {
      match n
      case Assign(line, targets, value) =>
        DefineAssignTargets(line, targets);
        VisitAll(targets);
        Visit(value);
      case AnnAssign(line, target, annotation, rhs) =>
        if target.Name? {
          symbolTable.AddDefinition(target.id, VariableKind, line, currentScope);
        }
        Visit(target);
        Visit(annotation);
        if rhs.Some? {
          Visit(rhs.value);
        }
    }

    /** `visit_Call`: record the callee for a plain or a method call, then walk the callee and the arguments. */
    method VisitCall(n: Node)
      requires n.Call?
      requires symbolTable.Valid()
      modifies this, symbolTable
      ensures symbolTable.Valid() && currentScope == old(currentScope)
      ensures symbolTable.Value() == VisitNode(old(symbolTable.Value()), old(currentScope), n)
      decreases n, 0
    {
      ghost var t := symbolTable.Value();
      if n.func.Name? {
        symbolTable.AddFunctionCall(n.func.id, n.line);
      } else if n.func.Attribute? {
        symbolTable.AddFunctionCall(n.func.attr, n.line);
      }
      assert symbolTable.Value() == match CalleeName(n.func) case Some(callee) => WithCall(t, callee, n.line) case None => t;
      Visit(n.func);
      VisitAll(n.args);
    }

    /** `visit`: the rule for the node's kind, then its children; the scope is restored afterwards. */
    method Visit(n: Node)
      requires symbolTable.Valid()
      modifies this, symbolTable
      ensures symbolTable.Valid() && currentScope == old(currentScope)
      ensures symbolTable.Value() == VisitNode(old(symbolTable.Value()), old(currentScope), n)
      decreases n, 1
    {
      match n
      case Import(line, names) =>
        BindAliases(line, None, names);
      case ImportFrom(line, m, names) =>
        BindAliases(line, Some(m.GetOr("")), names);
      case FunctionDef(_, _, _, _) =>
        VisitDefinition(n);
      case AsyncFunctionDef(_, _, _, _) =>
        VisitDefinition(n);
      case ClassDef(_, _, _) =>
        VisitDefinition(n);
      case Assign(_, _, _) =>
        VisitAssignment(n);
      case AnnAssign(_, _, _, _) =>
        VisitAssignment(n);
      case Name(line, id, isLoad) =>
        if isLoad {
          symbolTable.AddUsage(id, line);
        }
      case Attribute(_, value, _) =>
        Visit(value);
      case Call(_, _, _) =>
        VisitCall(n);
      case Other(children) =>
        VisitAll(children);
    }
  }

  /** `build_symbol_table`, with the parser passed in. */
  method BuildSymbolTable(filePath: string, content: string, parse: Parser) returns (r: Option<SymbolTable>)
    ensures r.None? <==> SymbolTableOf(filePath, content, parse).None?
    ensures r.Some? ==> fresh(r.value) && r.value.Valid() && SymbolTableOf(filePath, content, parse) == Some(r.value.Value())
  {
    if Lower(Suffix(filePath)) != ".py" {
      return None;
    }
    var body := parse(content);
    if body.None? {
      return None;
    }
    var extractor := new PythonSymbolExtractor();
    extractor.VisitAll(body.value);
    return Some(extractor.symbolTable);
  }
}
