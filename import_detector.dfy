/**
 * `detect_import_removal_conflicts`: one task removed an import while
 * another task uses the symbol without importing it itself.
 */
module ImportDetection {
  import opened Wrappers
  import opened PyDict
  import opened PythonAst
  import opened SymbolTables
  import opened Extraction
  import opened SemanticConflicts

  /** The task's changes `changes[..n]` that remove an import, recorded as `symbol -> taskId`. */
  function RecordRemovals(removals: Dict<string, string>, taskId: string, changes: seq<SemanticChange>, n: nat): (r: Dict<string, string>)
    requires n <= |changes|
    ensures removals.Valid() ==> r.Valid()
    decreases n
  {
    if n == 0 then removals
    else
      var r := RecordRemovals(removals, taskId, changes, n - 1);
      if changes[n - 1].changeType == RemoveImport then r.Put(changes[n - 1].target, taskId) else r
  }

  /** The removals recorded from the first `n` analyses, in the order of the analyses dict. */
  function RemovalsUpTo(analyses: Dict<string, FileAnalysis>, n: nat): (r: Dict<string, string>)
    requires analyses.Valid() && n <= |analyses.keys|
    ensures r.Valid()
  {
    if n == 0 then Empty()
    else
      var taskId := analyses.keys[n - 1];
      assert taskId in analyses.keys;
      var changes := analyses.entries[taskId].changes;
      RecordRemovals(RemovalsUpTo(analyses, n - 1), taskId, changes, |changes|)
  }

  /** The analysis has a change removing the import of `symbol` among its first `n` changes. */
  ghost predicate RemovesAmong(changes: seq<SemanticChange>, n: int, symbol: string) {
    exists j :: 0 <= j < n && j < |changes| && changes[j].changeType == RemoveImport && changes[j].target == symbol
  }

  /** The task at index `i` of the analyses removes the import of `symbol`. */
  ghost predicate TaskRemoves(analyses: Dict<string, FileAnalysis>, i: int, symbol: string)
    requires analyses.Valid()
  {
    0 <= i < |analyses.keys| && analyses.keys[i] in analyses.entries
    && RemovesAmong(analyses.entries[analyses.keys[i]].changes, |analyses.entries[analyses.keys[i]].changes|, symbol)
  }

  /** Within one task, a removed symbol maps to that task; every other symbol keeps its entry. */
  lemma {:induction false} RecordRemovalsSpec(removals: Dict<string, string>, taskId: string, changes: seq<SemanticChange>, n: nat, symbol: string)
    requires n <= |changes|
    ensures var r := RecordRemovals(removals, taskId, changes, n);
      && (RemovesAmong(changes, n, symbol) ==> r.Has(symbol) && r.entries[symbol] == taskId)
      && (!RemovesAmong(changes, n, symbol) ==> (r.Has(symbol) <==> removals.Has(symbol)))
      && (!RemovesAmong(changes, n, symbol) && removals.Has(symbol) ==> r.entries[symbol] == removals.entries[symbol])
    decreases n
  {
    if n > 0 {
      RecordRemovalsSpec(removals, taskId, changes, n - 1, symbol);
      if !RemovesAmong(changes, n - 1, symbol) && RemovesAmong(changes, n, symbol) {
        var j :| 0 <= j < n && j < |changes| && changes[j].changeType == RemoveImport && changes[j].target == symbol;
        assert j == n - 1;
      }
    }
  }

  /** A symbol is recorded exactly when one of the first `n` tasks removes its import. */
  lemma {:induction false} RemovalsRecorded(analyses: Dict<string, FileAnalysis>, n: nat, symbol: string)
    requires analyses.Valid() && n <= |analyses.keys|
    ensures RemovalsUpTo(analyses, n).Has(symbol) <==> exists i :: 0 <= i < n && TaskRemoves(analyses, i, symbol)
  {
    if n > 0 {
      RemovalsRecorded(analyses, n - 1, symbol);
      var taskId := analyses.keys[n - 1];
      assert taskId in analyses.keys;
      var changes := analyses.entries[taskId].changes;
      var earlier := RemovalsUpTo(analyses, n - 1);
      assert RemovalsUpTo(analyses, n) == RecordRemovals(earlier, taskId, changes, |changes|);
      assert TaskRemoves(analyses, n - 1, symbol) <==> RemovesAmong(changes, |changes|, symbol);
      RecordRemovalsSpec(earlier, taskId, changes, |changes|, symbol);
      if exists i :: 0 <= i < n && TaskRemoves(analyses, i, symbol) {
        var i :| 0 <= i < n && TaskRemoves(analyses, i, symbol);
        if i < n - 1 {
          assert exists i' :: 0 <= i' < n - 1 && TaskRemoves(analyses, i', symbol);
        }
      }
      if RemovalsUpTo(analyses, n).Has(symbol) && !TaskRemoves(analyses, n - 1, symbol) {
        var i :| 0 <= i < n - 1 && TaskRemoves(analyses, i, symbol);
        assert 0 <= i < n;
      }
    }
  }

  /**
   * `removals[symbol] = task_id`, later tasks overwriting earlier ones: a
   * recorded symbol maps to the last task, in the order of the analyses,
   * that removes its import.
   */
  lemma {:induction false} RemovalsLastWins(analyses: Dict<string, FileAnalysis>, n: nat, symbol: string)
    requires analyses.Valid() && n <= |analyses.keys|
    requires RemovalsUpTo(analyses, n).Has(symbol)
    ensures exists i :: (0 <= i < n && TaskRemoves(analyses, i, symbol)
      && RemovalsUpTo(analyses, n).entries[symbol] == analyses.keys[i]
      && forall i' :: i < i' < n ==> !TaskRemoves(analyses, i', symbol))
  {
    var taskId := analyses.keys[n - 1];
    assert taskId in analyses.keys;
    var changes := analyses.entries[taskId].changes;
    var earlier := RemovalsUpTo(analyses, n - 1);
    assert RemovalsUpTo(analyses, n) == RecordRemovals(earlier, taskId, changes, |changes|);
    assert TaskRemoves(analyses, n - 1, symbol) <==> RemovesAmong(changes, |changes|, symbol);
    RecordRemovalsSpec(earlier, taskId, changes, |changes|, symbol);
    var last: nat;
    if TaskRemoves(analyses, n - 1, symbol) {
      last := n - 1;
      assert RemovalsUpTo(analyses, n).entries[symbol] == analyses.keys[last];
    } else {
      RemovalsLastWins(analyses, n - 1, symbol);
      var i :| 0 <= i < n - 1 && TaskRemoves(analyses, i, symbol) && earlier.entries[symbol] == analyses.keys[i]
        && forall i' :: i < i' < n - 1 ==> !TaskRemoves(analyses, i', symbol);
      last := i;
      assert RemovalsUpTo(analyses, n).entries[symbol] == analyses.keys[last];
    }
    assert forall i' :: last < i' < n ==> !TaskRemoves(analyses, i', symbol);
    assert 0 <= last < n && TaskRemoves(analyses, last, symbol);
  }

  /** The conflict for task `taskId` and the symbol at index `j` of the removals, when there is one. */
  ghost predicate HitAt(filePath: string, removals: Dict<string, string>, taskId: string, t: Tables, j: int, c: SemanticConflict)
    requires removals.Valid()
  {
    && 0 <= j < |removals.keys|
    && var symbol := removals.keys[j];
    && symbol in removals.entries
    && removals.entries[symbol] != taskId
    && t.usages.Has(symbol) && !t.imports.Has(symbol)
    && c == ImportConflict(filePath, symbol, removals.entries[symbol], taskId, t.usages.entries[symbol])
  }

  /** The conflict, if any, that one task's table raises for the symbol at index `j` of the removals. */
  function SymbolHit(filePath: string, removals: Dict<string, string>, taskId: string, t: Tables, j: nat): seq<SemanticConflict>
    requires removals.Valid() && j < |removals.keys|
  {
    var symbol := removals.keys[j];
    assert symbol in removals.keys;
    var removalTask := removals.entries[symbol];
    if removalTask != taskId && t.usages.Has(symbol) && !t.imports.Has(symbol)
    then [ImportConflict(filePath, symbol, removalTask, taskId, t.usages.entries[symbol])]
    else []
  }

  /** The conflicts one task's table raises against the first `n` removals. */
  function RemovalHits(filePath: string, removals: Dict<string, string>, taskId: string, t: Tables, n: nat): seq<SemanticConflict>
    requires removals.Valid() && n <= |removals.keys|
  {
    if n == 0 then []
    else RemovalHits(filePath, removals, taskId, t, n - 1) + SymbolHit(filePath, removals, taskId, t, n - 1)
  }

  /** The conflicts the task at index `i` of `contents` raises: none when its new version yields no table. */
  function TaskHits(filePath: string, removals: Dict<string, string>, contents: Dict<string, FileVersions>, build: string -> Option<Tables>, i: nat): seq<SemanticConflict>
    requires removals.Valid() && contents.Valid() && i < |contents.keys|
  {
    var taskId := contents.keys[i];
    assert taskId in contents.keys;
    match build(contents.entries[taskId].after)
    case None => []
    case Some(t) => RemovalHits(filePath, removals, taskId, t, |removals.keys|)
  }

  /** The conflicts raised by the first `n` tasks of `contents`, in order, each task's table being `build` of its new version. */
  function RemovalScan(filePath: string, removals: Dict<string, string>, contents: Dict<string, FileVersions>, build: string -> Option<Tables>, n: nat): seq<SemanticConflict>
    requires removals.Valid() && contents.Valid() && n <= |contents.keys|
  {
    if n == 0 then []
    else RemovalScan(filePath, removals, contents, build, n - 1) + TaskHits(filePath, removals, contents, build, n - 1)
  }

  /** What `detect_import_removal_conflicts` returns. */
  function ImportRemovalConflicts(analyses: Dict<string, FileAnalysis>, contents: Dict<string, FileVersions>, parse: Parser): seq<SemanticConflict>
    requires analyses.Valid() && contents.Valid()
  {
    if |analyses.keys| == 0 then []
    else
      var filePath := FilePathOf(analyses);
      RemovalScan(filePath, RemovalsUpTo(analyses, |analyses.keys|), contents, TableBuilder(filePath, parse), |contents.keys|)
  }

  /** The conflict for the task at index `i` of `contents` and the symbol at index `j` of the removals. */
  ghost predicate ConflictAt(filePath: string, removals: Dict<string, string>, contents: Dict<string, FileVersions>, build: string -> Option<Tables>, i: int, j: int, c: SemanticConflict)
    requires removals.Valid() && contents.Valid()
  {
    && 0 <= i < |contents.keys|
    && contents.keys[i] in contents.entries
    && var table := build(contents.entries[contents.keys[i]].after);
    && table.Some?
    && HitAt(filePath, removals, contents.keys[i], table.value, j, c)
  }

  /** One symbol's hit list holds exactly the conflict `HitAt` describes. */
  lemma SymbolHitExactly(filePath: string, removals: Dict<string, string>, taskId: string, t: Tables, j: nat, c: SemanticConflict)
    requires removals.Valid() && j < |removals.keys|
    ensures c in SymbolHit(filePath, removals, taskId, t, j) <==> HitAt(filePath, removals, taskId, t, j, c)
  {
  }

  /** A conflict is among one table's hits against the first `n` removals exactly when one of those symbols raises it. */
  lemma {:induction false} RemovalHitsExactly(filePath: string, removals: Dict<string, string>, taskId: string, t: Tables, n: nat, c: SemanticConflict)
    requires removals.Valid() && n <= |removals.keys|
    ensures c in RemovalHits(filePath, removals, taskId, t, n) ==> exists j :: 0 <= j < n && c in SymbolHit(filePath, removals, taskId, t, j)
    ensures forall j :: 0 <= j < n && c in SymbolHit(filePath, removals, taskId, t, j) ==> c in RemovalHits(filePath, removals, taskId, t, n)
  {
    if n > 0 {
      RemovalHitsExactly(filePath, removals, taskId, t, n - 1, c);
      var earlier := RemovalHits(filePath, removals, taskId, t, n - 1);
      var last := SymbolHit(filePath, removals, taskId, t, n - 1);
      assert RemovalHits(filePath, removals, taskId, t, n) == earlier + last;
      if c in last {
        assert 0 <= n - 1 < n && c in SymbolHit(filePath, removals, taskId, t, n - 1);
      }
    }
  }

  /** A task's hits are exactly the conflicts `ConflictAt` describes for that task. */
  lemma TaskHitsExactly(filePath: string, removals: Dict<string, string>, contents: Dict<string, FileVersions>, build: string -> Option<Tables>, i: nat, c: SemanticConflict)
    requires removals.Valid() && contents.Valid() && i < |contents.keys|
    ensures c in TaskHits(filePath, removals, contents, build, i) <==> exists j :: ConflictAt(filePath, removals, contents, build, i, j, c)
  {
    var taskId := contents.keys[i];
    assert taskId in contents.keys;
    var table := build(contents.entries[taskId].after);
    if table.Some? {
      RemovalHitsExactly(filePath, removals, taskId, table.value, |removals.keys|, c);
      if exists j :: ConflictAt(filePath, removals, contents, build, i, j, c) {
        var j :| ConflictAt(filePath, removals, contents, build, i, j, c);
        SymbolHitExactly(filePath, removals, taskId, table.value, j, c);
      }
      if c in TaskHits(filePath, removals, contents, build, i) {
        var j :| 0 <= j < |removals.keys| && c in SymbolHit(filePath, removals, taskId, table.value, j);
        SymbolHitExactly(filePath, removals, taskId, table.value, j, c);
        assert ConflictAt(filePath, removals, contents, build, i, j, c);
      }
    }
  }

  /** A conflict is in the scan of the first `n` tasks exactly when one of those tasks raises it. */
  lemma {:induction false} RemovalScanExactly(filePath: string, removals: Dict<string, string>, contents: Dict<string, FileVersions>, build: string -> Option<Tables>, n: nat, c: SemanticConflict)
    requires removals.Valid() && contents.Valid() && n <= |contents.keys|
    ensures c in RemovalScan(filePath, removals, contents, build, n) ==>
      exists i :: 0 <= i < n && c in TaskHits(filePath, removals, contents, build, i)
    ensures forall i :: 0 <= i < n && c in TaskHits(filePath, removals, contents, build, i) ==>
      c in RemovalScan(filePath, removals, contents, build, n)
  {
    if n > 0 {
      RemovalScanExactly(filePath, removals, contents, build, n - 1, c);
      var earlier := RemovalScan(filePath, removals, contents, build, n - 1);
      var last := TaskHits(filePath, removals, contents, build, n - 1);
      assert RemovalScan(filePath, removals, contents, build, n) == earlier + last;
      if c in last {
        assert 0 <= n - 1 < n && c in TaskHits(filePath, removals, contents, build, n - 1);
      }
    }
  }

  /** A whole scan reports a conflict exactly for some task and some removed symbol. */
  lemma ScanExactly(filePath: string, removals: Dict<string, string>, contents: Dict<string, FileVersions>, build: string -> Option<Tables>, c: SemanticConflict)
    requires removals.Valid() && contents.Valid()
    ensures c in RemovalScan(filePath, removals, contents, build, |contents.keys|) <==>
      exists i, j :: ConflictAt(filePath, removals, contents, build, i, j, c)
  {
    RemovalScanExactly(filePath, removals, contents, build, |contents.keys|, c);
    if c in RemovalScan(filePath, removals, contents, build, |contents.keys|) {
      var i :| 0 <= i < |contents.keys| && c in TaskHits(filePath, removals, contents, build, i);
      TaskHitsExactly(filePath, removals, contents, build, i, c);
    }
    if exists i, j :: ConflictAt(filePath, removals, contents, build, i, j, c) {
      var i, j :| ConflictAt(filePath, removals, contents, build, i, j, c);
      TaskHitsExactly(filePath, removals, contents, build, i, c);
    }
  }

  /**
   * A conflict is reported exactly for a task of `contents` whose new
   * version parses, and a symbol whose import another task removed, when
   * that task's table uses the symbol and does not import it.
   */
  lemma ImportConflictsExactly(analyses: Dict<string, FileAnalysis>, contents: Dict<string, FileVersions>, parse: Parser, c: SemanticConflict)
    requires analyses.Valid() && contents.Valid()
    ensures c in ImportRemovalConflicts(analyses, contents, parse) ==>
      && |analyses.keys| > 0
      && exists i, j :: ConflictAt(FilePathOf(analyses), RemovalsUpTo(analyses, |analyses.keys|), contents,
           TableBuilder(FilePathOf(analyses), parse), i, j, c)
    ensures |analyses.keys| > 0 ==>
      (exists i, j :: ConflictAt(FilePathOf(analyses), RemovalsUpTo(analyses, |analyses.keys|), contents,
         TableBuilder(FilePathOf(analyses), parse), i, j, c))
      ==> c in ImportRemovalConflicts(analyses, contents, parse)
  {
    if |analyses.keys| > 0 {
      ScanExactly(FilePathOf(analyses), RemovalsUpTo(analyses, |analyses.keys|), contents, TableBuilder(FilePathOf(analyses), parse), c);
    }
  }

  /**
   * Every import-removal conflict is CRITICAL, pairs the remover with a
   * different task, and sits at the first line where that task uses the
   * symbol.
   */
  lemma ImportConflictShape(analyses: Dict<string, FileAnalysis>, contents: Dict<string, FileVersions>, parse: Parser, c: SemanticConflict)
    requires analyses.Valid() && contents.Valid()
    requires c in ImportRemovalConflicts(analyses, contents, parse)
    ensures c.conflictType == "import_removal" && c.severity == Critical
    ensures |c.tasksInvolved| == 2 && c.tasksInvolved[0] != c.tasksInvolved[1]
    ensures c.tasksInvolved[1] in contents.keys
    ensures c.metadata.ImportInfo? && |c.metadata.usageLines| > 0 && c.lineNumber == c.metadata.usageLines[0]
    ensures c.location == "import:" + c.metadata.symbol && c.filePath == FilePathOf(analyses)
    ensures c.description == ImportDescription(c.tasksInvolved[0], c.metadata.symbol, c.tasksInvolved[1], c.metadata.usageLines)
    ensures c.suggestion == Some(ImportSuggestion(c.tasksInvolved[1], c.metadata.symbol))
  {
    ImportConflictsExactly(analyses, contents, parse, c);
    var filePath := FilePathOf(analyses);
    var removals := RemovalsUpTo(analyses, |analyses.keys|);
    var build := TableBuilder(filePath, parse);
    var i, j :| ConflictAt(filePath, removals, contents, build, i, j, c);
    var table := build(contents.entries[contents.keys[i]].after);
    assert Invariant(table.value);
  }

  /** The first loop of `detect_import_removal_conflicts`: every removed import, recorded against the task that removed it. */
  method CollectRemovals(analyses: Dict<string, FileAnalysis>) returns (removals: Dict<string, string>)
    requires analyses.Valid()
    ensures removals == RemovalsUpTo(analyses, |analyses.keys|)
  {
    removals := Empty();
    var i := 0;
    while i < |analyses.keys|
      invariant 0 <= i <= |analyses.keys|
      invariant removals == RemovalsUpTo(analyses, i)
    {
      var taskId := analyses.keys[i];
      assert taskId in analyses.keys;
      var changes := analyses.entries[taskId].changes;
      var j := 0;
      while j < |changes|
        invariant 0 <= j <= |changes|
        invariant removals == RecordRemovals(RemovalsUpTo(analyses, i), taskId, changes, j)
      {
        if changes[j].changeType == RemoveImport {
          removals := removals.Put(changes[j].target, taskId);
        }
        j := j + 1;
      }
      i := i + 1;
    }
  }

  /** The inner loop of the second pass: the conflicts of one task's table, appended to `conflicts`. */
  method AppendRemovalHits(conflicts: seq<SemanticConflict>, filePath: string, removals: Dict<string, string>, taskId: string, table: SymbolTable)
    returns (r: seq<SemanticConflict>)
    requires removals.Valid()
    ensures r == conflicts + RemovalHits(filePath, removals, taskId, table.Value(), |removals.keys|)
  {
    r := conflicts;
    var j := 0;
    while j < |removals.keys|
      invariant 0 <= j <= |removals.keys|
      invariant r == conflicts + RemovalHits(filePath, removals, taskId, table.Value(), j)
    {
      ghost var before := r;
      var symbol := removals.keys[j];
      assert symbol in removals.keys;
      var removalTask := removals.entries[symbol];
      if removalTask != taskId {
        if table.usages.Has(symbol) && !table.imports.Has(symbol) {
          var usageLines := table.usages.entries[symbol];
          r := r + [ImportConflict(filePath, symbol, removalTask, taskId, usageLines)];
        }
      }
      assert r == before + SymbolHit(filePath, removals, taskId, table.Value(), j);
      assert RemovalHits(filePath, removals, taskId, table.Value(), j + 1)
        == RemovalHits(filePath, removals, taskId, table.Value(), j) + SymbolHit(filePath, removals, taskId, table.Value(), j);
      j := j + 1;
    }
  }

  /** One more task extends the scan by that task's conflicts. */
  lemma ScanStep(filePath: string, removals: Dict<string, string>, contents: Dict<string, FileVersions>, build: string -> Option<Tables>, i: nat)
    requires removals.Valid() && contents.Valid() && i < |contents.keys|
    ensures RemovalScan(filePath, removals, contents, build, i + 1)
      == RemovalScan(filePath, removals, contents, build, i) + TaskHits(filePath, removals, contents, build, i)
  {
  }

  /** The result is the scan of every task against every removal. */
  lemma ImportConflictsAreScan(analyses: Dict<string, FileAnalysis>, contents: Dict<string, FileVersions>, parse: Parser)
    requires analyses.Valid() && contents.Valid() && |analyses.keys| > 0
    ensures ImportRemovalConflicts(analyses, contents, parse)
      == RemovalScan(FilePathOf(analyses), RemovalsUpTo(analyses, |analyses.keys|), contents, TableBuilder(FilePathOf(analyses), parse), |contents.keys|)
  {
  }

  /** One step of the second pass: build the task's table from its new version and append the conflicts it raises. */
  method AppendTaskHits(conflicts: seq<SemanticConflict>, filePath: string, removals: Dict<string, string>, contents: Dict<string, FileVersions>, parse: Parser, i: nat)
    returns (r: seq<SemanticConflict>)
    requires removals.Valid() && contents.Valid() && i < |contents.keys|
    ensures r == conflicts + TaskHits(filePath, removals, contents, TableBuilder(filePath, parse), i)
  {
    var taskId := contents.keys[i];
    assert taskId in contents.keys;
    var content := contents.entries[taskId].after;
    var table := BuildSymbolTable(filePath, content, parse);
    assert TableBuilder(filePath, parse)(content) == SymbolTableOf(filePath, content, parse);
    r := conflicts;
    if table.Some? {
      r := AppendRemovalHits(conflicts, filePath, removals, taskId, table.value);
    }
  }

  /** `detect_import_removal_conflicts`, with the parser passed in. */
  method DetectImportRemovalConflicts(analyses: Dict<string, FileAnalysis>, contents: Dict<string, FileVersions>, parse: Parser)
    returns (conflicts: seq<SemanticConflict>)
    requires analyses.Valid() && contents.Valid()
    ensures conflicts == ImportRemovalConflicts(analyses, contents, parse)
  {
    conflicts := [];
    if |analyses.keys| == 0 {
      return;
    }
    assert analyses.keys[0] in analyses.keys;
    var filePath := analyses.entries[analyses.keys[0]].filePath;
    var removals := CollectRemovals(analyses);
    var i := 0;
    while i < |contents.keys|
      invariant 0 <= i <= |contents.keys|
      invariant conflicts == RemovalScan(filePath, removals, contents, TableBuilder(filePath, parse), i)
    {
      conflicts := AppendTaskHits(conflicts, filePath, removals, contents, parse, i);
      ScanStep(filePath, removals, contents, TableBuilder(filePath, parse), i);
      i := i + 1;
    }
    ImportConflictsAreScan(analyses, contents, parse);
  }
}
