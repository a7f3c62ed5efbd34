/**
 * `detect_function_rename_conflicts`: one task renamed a function while
 * another task still calls it by its old name.
 */
module RenameDetection {
  import opened Wrappers
  import opened PyDict
  import opened PythonAst
  import opened SymbolTables
  import opened Extraction
  import opened SemanticConflicts

  /** `(new_name, task_id)`, the value the first pass stores under an old name. */
  datatype Rename = Rename(newName: string, taskId: string)

  /** A change the first pass records: a function rename with both versions of the code present and non-empty. */
  predicate IsRecordedRename(change: SemanticChange) {
    change.changeType == RenameFunction && Truthy(change.contentBefore) && Truthy(change.contentAfter)
  }

  /** The renames among the task's changes `changes[..n]`, recorded as `target -> (target, taskId)`. */
  function RecordRenames(renames: Dict<string, Rename>, taskId: string, changes: seq<SemanticChange>, n: nat): (r: Dict<string, Rename>)
    requires n <= |changes|
    ensures renames.Valid() ==> r.Valid()
    decreases n
  {
    if n == 0 then renames
    else
      var r := RecordRenames(renames, taskId, changes, n - 1);
      if IsRecordedRename(changes[n - 1]) then r.Put(changes[n - 1].target, Rename(changes[n - 1].target, taskId)) else r
  }

  /** The renames recorded from the first `n` analyses, in the order of the analyses dict. */
  function RenamesUpTo(analyses: Dict<string, FileAnalysis>, n: nat): (r: Dict<string, Rename>)
    requires analyses.Valid() && n <= |analyses.keys|
    ensures r.Valid()
  {
    if n == 0 then Empty()
    else
      var taskId := analyses.keys[n - 1];
      assert taskId in analyses.keys;
      var changes := analyses.entries[taskId].changes;
      RecordRenames(RenamesUpTo(analyses, n - 1), taskId, changes, |changes|)
  }

  /** One of the first `n` changes is a recorded rename of `name`. */
  ghost predicate RenamesAmong(changes: seq<SemanticChange>, n: int, name: string) {
    exists j :: 0 <= j < n && j < |changes| && IsRecordedRename(changes[j]) && changes[j].target == name
  }

  /** The task at index `i` of the analyses renames the function `name`. */
  ghost predicate TaskRenames(analyses: Dict<string, FileAnalysis>, i: int, name: string)
    requires analyses.Valid()
  {
    0 <= i < |analyses.keys| && analyses.keys[i] in analyses.entries
    && RenamesAmong(analyses.entries[analyses.keys[i]].changes, |analyses.entries[analyses.keys[i]].changes|, name)
  }

  /** Within one task, a renamed function maps to that task; every other name keeps its entry. */
  lemma {:induction false} RecordRenamesSpec(renames: Dict<string, Rename>, taskId: string, changes: seq<SemanticChange>, n: nat, name: string)
    requires n <= |changes|
    ensures var r := RecordRenames(renames, taskId, changes, n);
      && (RenamesAmong(changes, n, name) ==> r.Has(name) && r.entries[name] == Rename(name, taskId))
      && (!RenamesAmong(changes, n, name) ==> (r.Has(name) <==> renames.Has(name)))
      && (!RenamesAmong(changes, n, name) && renames.Has(name) ==> r.entries[name] == renames.entries[name])
    decreases n
  {
    if n > 0 {
      RecordRenamesSpec(renames, taskId, changes, n - 1, name);
      if !RenamesAmong(changes, n - 1, name) && RenamesAmong(changes, n, name) {
        var j :| 0 <= j < n && j < |changes| && IsRecordedRename(changes[j]) && changes[j].target == name;
        assert j == n - 1;
      }
    }
  }

  /** A name is recorded exactly when one of the first `n` tasks renames it. */
  lemma {:induction false} RenamesRecorded(analyses: Dict<string, FileAnalysis>, n: nat, name: string)
    requires analyses.Valid() && n <= |analyses.keys|
    ensures RenamesUpTo(analyses, n).Has(name) <==> exists i :: 0 <= i < n && TaskRenames(analyses, i, name)
  {
    if n > 0 {
      RenamesRecorded(analyses, n - 1, name);
      var taskId := analyses.keys[n - 1];
      assert taskId in analyses.keys;
      var changes := analyses.entries[taskId].changes;
      var earlier := RenamesUpTo(analyses, n - 1);
      assert RenamesUpTo(analyses, n) == RecordRenames(earlier, taskId, changes, |changes|);
      assert TaskRenames(analyses, n - 1, name) <==> RenamesAmong(changes, |changes|, name);
      RecordRenamesSpec(earlier, taskId, changes, |changes|, name);
      if exists i :: 0 <= i < n && TaskRenames(analyses, i, name) {
        var i :| 0 <= i < n && TaskRenames(analyses, i, name);
        if i < n - 1 {
          assert exists i' :: 0 <= i' < n - 1 && TaskRenames(analyses, i', name);
        }
      }
      if RenamesUpTo(analyses, n).Has(name) && !TaskRenames(analyses, n - 1, name) {
        var i :| 0 <= i < n - 1 && TaskRenames(analyses, i, name);
        assert 0 <= i < n;
      }
    }
  }

  /**
   * `renames[old_name] = (change.target, task_id)`, later tasks
   * overwriting earlier ones: a recorded name maps to itself as the "new"
   * name and to the last task, in the order of the analyses, that renames it.
   */
  lemma {:induction false} RenamesLastWins(analyses: Dict<string, FileAnalysis>, n: nat, name: string)
    requires analyses.Valid() && n <= |analyses.keys|
    requires RenamesUpTo(analyses, n).Has(name)
    ensures RenamesUpTo(analyses, n).entries[name].newName == name
    ensures exists i :: (0 <= i < n && TaskRenames(analyses, i, name)
      && RenamesUpTo(analyses, n).entries[name].taskId == analyses.keys[i]
      && forall i' :: i < i' < n ==> !TaskRenames(analyses, i', name))
  {
    var taskId := analyses.keys[n - 1];
    assert taskId in analyses.keys;
    var changes := analyses.entries[taskId].changes;
    var earlier := RenamesUpTo(analyses, n - 1);
    assert RenamesUpTo(analyses, n) == RecordRenames(earlier, taskId, changes, |changes|);
    assert TaskRenames(analyses, n - 1, name) <==> RenamesAmong(changes, |changes|, name);
    RecordRenamesSpec(earlier, taskId, changes, |changes|, name);
    var last: nat;
    if TaskRenames(analyses, n - 1, name) {
      last := n - 1;
      assert RenamesUpTo(analyses, n).entries[name] == Rename(name, analyses.keys[last]);
    } else {
      RenamesLastWins(analyses, n - 1, name);
      var i :| 0 <= i < n - 1 && TaskRenames(analyses, i, name) && earlier.entries[name].taskId == analyses.keys[i]
        && forall i' :: i < i' < n - 1 ==> !TaskRenames(analyses, i', name);
      last := i;
      assert RenamesUpTo(analyses, n).entries[name] == earlier.entries[name];
    }
    assert forall i' :: last < i' < n ==> !TaskRenames(analyses, i', name);
    assert 0 <= last < n && TaskRenames(analyses, last, name);
  }

  /** The conflict for task `taskId` and the old name at index `j` of the renames, when there is one. */
  ghost predicate HitAt(filePath: string, renames: Dict<string, Rename>, taskId: string, t: Tables, j: int, c: SemanticConflict)
    requires renames.Valid()
  {
    && 0 <= j < |renames.keys|
    && var oldName := renames.keys[j];
    && oldName in renames.entries
    && renames.entries[oldName].taskId != taskId
    && t.calls.Has(oldName)
    && c == RenameConflict(filePath, oldName, renames.entries[oldName].newName, renames.entries[oldName].taskId, taskId, t.calls.entries[oldName])
  }

  /** The conflict, if any, that one task's table raises for the old name at index `j` of the renames. */
  function NameHit(filePath: string, renames: Dict<string, Rename>, taskId: string, t: Tables, j: nat): seq<SemanticConflict>
    requires renames.Valid() && j < |renames.keys|
  {
    var oldName := renames.keys[j];
    assert oldName in renames.keys;
    var rename := renames.entries[oldName];
    if rename.taskId != taskId && t.calls.Has(oldName)
    then [RenameConflict(filePath, oldName, rename.newName, rename.taskId, taskId, t.calls.entries[oldName])]
    else []
  }

  /** The conflicts one task's table raises against the first `n` renames. */
  function RenameHits(filePath: string, renames: Dict<string, Rename>, taskId: string, t: Tables, n: nat): seq<SemanticConflict>
    requires renames.Valid() && n <= |renames.keys|
  {
    if n == 0 then []
    else RenameHits(filePath, renames, taskId, t, n - 1) + NameHit(filePath, renames, taskId, t, n - 1)
  }

  /** The conflicts the task at index `i` of `contents` raises: none when its new version yields no table. */
  function TaskHits(filePath: string, renames: Dict<string, Rename>, contents: Dict<string, FileVersions>, build: string -> Option<Tables>, i: nat): seq<SemanticConflict>
    requires renames.Valid() && contents.Valid() && i < |contents.keys|
  {
    var taskId := contents.keys[i];
    assert taskId in contents.keys;
    match build(contents.entries[taskId].after)
    case None => []
    case Some(t) => RenameHits(filePath, renames, taskId, t, |renames.keys|)
  }

  /** The conflicts raised by the first `n` tasks of `contents`, in order, each task's table being `build` of its new version. */
  function RenameScan(filePath: string, renames: Dict<string, Rename>, contents: Dict<string, FileVersions>, build: string -> Option<Tables>, n: nat): seq<SemanticConflict>
    requires renames.Valid() && contents.Valid() && n <= |contents.keys|
  {
    if n == 0 then []
    else RenameScan(filePath, renames, contents, build, n - 1) + TaskHits(filePath, renames, contents, build, n - 1)
  }

  /** What `detect_function_rename_conflicts` returns. */
  function FunctionRenameConflicts(analyses: Dict<string, FileAnalysis>, contents: Dict<string, FileVersions>, parse: Parser): seq<SemanticConflict>
    requires analyses.Valid() && contents.Valid()
  {
    if |analyses.keys| == 0 then []
    else
      var filePath := FilePathOf(analyses);
      RenameScan(filePath, RenamesUpTo(analyses, |analyses.keys|), contents, TableBuilder(filePath, parse), |contents.keys|)
  }

  /** The conflict for the task at index `i` of `contents` and the old name at index `j` of the renames. */
  ghost predicate ConflictAt(filePath: string, renames: Dict<string, Rename>, contents: Dict<string, FileVersions>, build: string -> Option<Tables>, i: int, j: int, c: SemanticConflict)
    requires renames.Valid() && contents.Valid()
  {
    && 0 <= i < |contents.keys|
    && contents.keys[i] in contents.entries
    && var table := build(contents.entries[contents.keys[i]].after);
    && table.Some?
    && HitAt(filePath, renames, contents.keys[i], table.value, j, c)
  }

  /** One old name's hit list holds exactly the conflict `HitAt` describes. */
  lemma NameHitExactly(filePath: string, renames: Dict<string, Rename>, taskId: string, t: Tables, j: nat, c: SemanticConflict)
    requires renames.Valid() && j < |renames.keys|
    ensures c in NameHit(filePath, renames, taskId, t, j) <==> HitAt(filePath, renames, taskId, t, j, c)
  {
  }

  /** A conflict is among one table's hits against the first `n` renames exactly when one of those names raises it. */
  lemma {:induction false} RenameHitsExactly(filePath: string, renames: Dict<string, Rename>, taskId: string, t: Tables, n: nat, c: SemanticConflict)
    requires renames.Valid() && n <= |renames.keys|
    ensures c in RenameHits(filePath, renames, taskId, t, n) ==> exists j :: 0 <= j < n && c in NameHit(filePath, renames, taskId, t, j)
    ensures forall j :: 0 <= j < n && c in NameHit(filePath, renames, taskId, t, j) ==> c in RenameHits(filePath, renames, taskId, t, n)
  {
    if n > 0 {
      RenameHitsExactly(filePath, renames, taskId, t, n - 1, c);
      var earlier := RenameHits(filePath, renames, taskId, t, n - 1);
      var last := NameHit(filePath, renames, taskId, t, n - 1);
      assert RenameHits(filePath, renames, taskId, t, n) == earlier + last;
      if c in last {
        assert 0 <= n - 1 < n && c in NameHit(filePath, renames, taskId, t, n - 1);
      }
    }
  }

  /** A task's hits are exactly the conflicts `ConflictAt` describes for that task. */
  lemma TaskHitsExactly(filePath: string, renames: Dict<string, Rename>, contents: Dict<string, FileVersions>, build: string -> Option<Tables>, i: nat, c: SemanticConflict)
    requires renames.Valid() && contents.Valid() && i < |contents.keys|
    ensures c in TaskHits(filePath, renames, contents, build, i) <==> exists j :: ConflictAt(filePath, renames, contents, build, i, j, c)
  {
    var taskId := contents.keys[i];
    assert taskId in contents.keys;
    var table := build(contents.entries[taskId].after);
    if table.Some? {
      RenameHitsExactly(filePath, renames, taskId, table.value, |renames.keys|, c);
      if exists j :: ConflictAt(filePath, renames, contents, build, i, j, c) {
        var j :| ConflictAt(filePath, renames, contents, build, i, j, c);
        NameHitExactly(filePath, renames, taskId, table.value, j, c);
      }
      if c in TaskHits(filePath, renames, contents, build, i) {
        var j :| 0 <= j < |renames.keys| && c in NameHit(filePath, renames, taskId, table.value, j);
        NameHitExactly(filePath, renames, taskId, table.value, j, c);
        assert ConflictAt(filePath, renames, contents, build, i, j, c);
      }
    }
  }

  /** A conflict is in the scan of the first `n` tasks exactly when one of those tasks raises it. */
  lemma {:induction false} RenameScanExactly(filePath: string, renames: Dict<string, Rename>, contents: Dict<string, FileVersions>, build: string -> Option<Tables>, n: nat, c: SemanticConflict)
    requires renames.Valid() && contents.Valid() && n <= |contents.keys|
    ensures c in RenameScan(filePath, renames, contents, build, n) ==>
      exists i :: 0 <= i < n && c in TaskHits(filePath, renames, contents, build, i)
    ensures forall i :: 0 <= i < n && c in TaskHits(filePath, renames, contents, build, i) ==>
      c in RenameScan(filePath, renames, contents, build, n)
  {
    if n > 0 {
      RenameScanExactly(filePath, renames, contents, build, n - 1, c);
      var earlier := RenameScan(filePath, renames, contents, build, n - 1);
      var last := TaskHits(filePath, renames, contents, build, n - 1);
      assert RenameScan(filePath, renames, contents, build, n) == earlier + last;
      if c in last {
        assert 0 <= n - 1 < n && c in TaskHits(filePath, renames, contents, build, n - 1);
      }
    }
  }

  /** A whole scan reports a conflict exactly for some task and some renamed function. */
  lemma ScanExactly(filePath: string, renames: Dict<string, Rename>, contents: Dict<string, FileVersions>, build: string -> Option<Tables>, c: SemanticConflict)
    requires renames.Valid() && contents.Valid()
    ensures c in RenameScan(filePath, renames, contents, build, |contents.keys|) <==>
      exists i, j :: ConflictAt(filePath, renames, contents, build, i, j, c)
  {
    RenameScanExactly(filePath, renames, contents, build, |contents.keys|, c);
    if c in RenameScan(filePath, renames, contents, build, |contents.keys|) {
      var i :| 0 <= i < |contents.keys| && c in TaskHits(filePath, renames, contents, build, i);
      TaskHitsExactly(filePath, renames, contents, build, i, c);
    }
    if exists i, j :: ConflictAt(filePath, renames, contents, build, i, j, c) {
      var i, j :| ConflictAt(filePath, renames, contents, build, i, j, c);
      TaskHitsExactly(filePath, renames, contents, build, i, c);
    }
  }

  /**
   * A conflict is reported exactly for a task of `contents` whose new
   * version parses, and a function another task renamed, when that task's
   * table still records a call to the old name.
   */
  lemma RenameConflictsExactly(analyses: Dict<string, FileAnalysis>, contents: Dict<string, FileVersions>, parse: Parser, c: SemanticConflict)
    requires analyses.Valid() && contents.Valid()
    ensures c in FunctionRenameConflicts(analyses, contents, parse) ==>
      && |analyses.keys| > 0
      && exists i, j :: ConflictAt(FilePathOf(analyses), RenamesUpTo(analyses, |analyses.keys|), contents,
           TableBuilder(FilePathOf(analyses), parse), i, j, c)
    ensures |analyses.keys| > 0 ==>
      (exists i, j :: ConflictAt(FilePathOf(analyses), RenamesUpTo(analyses, |analyses.keys|), contents,
         TableBuilder(FilePathOf(analyses), parse), i, j, c))
      ==> c in FunctionRenameConflicts(analyses, contents, parse)
  {
    if |analyses.keys| > 0 {
      ScanExactly(FilePathOf(analyses), RenamesUpTo(analyses, |analyses.keys|), contents, TableBuilder(FilePathOf(analyses), parse), c);
    }
  }

  /**
   * Every rename conflict is HIGH, pairs the renaming task with a
   * different task, sits at the first recorded call of the old name, and
   * carries the target as both the old and the "new" name.
   */
  lemma RenameConflictShape(analyses: Dict<string, FileAnalysis>, contents: Dict<string, FileVersions>, parse: Parser, c: SemanticConflict)
    requires analyses.Valid() && contents.Valid()
    requires c in FunctionRenameConflicts(analyses, contents, parse)
    ensures c.conflictType == "function_rename" && c.severity == High
    ensures |c.tasksInvolved| == 2 && c.tasksInvolved[0] != c.tasksInvolved[1]
    ensures c.tasksInvolved[1] in contents.keys
    ensures c.metadata.RenameInfo? && c.metadata.newName == c.metadata.oldName
    ensures |c.metadata.callLines| > 0 && c.lineNumber == c.metadata.callLines[0]
    ensures c.location == "function:" + c.metadata.oldName && c.filePath == FilePathOf(analyses)
    ensures c.description == RenameDescription(c.tasksInvolved[0], c.metadata.oldName, c.metadata.newName, c.tasksInvolved[1], c.metadata.callLines)
    ensures c.suggestion == Some(RenameSuggestion(c.metadata.oldName, c.metadata.newName, c.tasksInvolved[1]))
  {
    RenameConflictsExactly(analyses, contents, parse, c);
    var filePath := FilePathOf(analyses);
    var renames := RenamesUpTo(analyses, |analyses.keys|);
    var build := TableBuilder(filePath, parse);
    var i, j :| ConflictAt(filePath, renames, contents, build, i, j, c);
    var table := build(contents.entries[contents.keys[i]].after);
    assert Invariant(table.value);
    RenamesLastWins(analyses, |analyses.keys|, renames.keys[j]);
  }

  /** One more task extends the scan by that task's conflicts. */
  lemma ScanStep(filePath: string, renames: Dict<string, Rename>, contents: Dict<string, FileVersions>, build: string -> Option<Tables>, i: nat)
    requires renames.Valid() && contents.Valid() && i < |contents.keys|
    ensures RenameScan(filePath, renames, contents, build, i + 1)
      == RenameScan(filePath, renames, contents, build, i) + TaskHits(filePath, renames, contents, build, i)
  {
  }

  /** The result is the scan of every task against every rename. */
  lemma RenameConflictsAreScan(analyses: Dict<string, FileAnalysis>, contents: Dict<string, FileVersions>, parse: Parser)
    requires analyses.Valid() && contents.Valid() && |analyses.keys| > 0
    ensures FunctionRenameConflicts(analyses, contents, parse)
      == RenameScan(FilePathOf(analyses), RenamesUpTo(analyses, |analyses.keys|), contents, TableBuilder(FilePathOf(analyses), parse), |contents.keys|)
  {
  }

  /** The first loop of `detect_function_rename_conflicts`: every recorded rename, against the task that made it. */
  method CollectRenames(analyses: Dict<string, FileAnalysis>) returns (renames: Dict<string, Rename>)
    requires analyses.Valid()
    ensures renames == RenamesUpTo(analyses, |analyses.keys|)
  {
    renames := Empty();
    var i := 0;
    while i < |analyses.keys|
      invariant 0 <= i <= |analyses.keys|
      invariant renames == RenamesUpTo(analyses, i)
    {
      var taskId := analyses.keys[i];
      assert taskId in analyses.keys;
      var changes := analyses.entries[taskId].changes;
      var j := 0;
      while j < |changes|
        invariant 0 <= j <= |changes|
        invariant renames == RecordRenames(RenamesUpTo(analyses, i), taskId, changes, j)
      {
        var change := changes[j];
        if change.changeType == RenameFunction {
          if Truthy(change.contentBefore) && Truthy(change.contentAfter) {
            var oldName := change.target;
            renames := renames.Put(oldName, Rename(change.target, taskId));
          }
        }
        j := j + 1;
      }
      i := i + 1;
    }
  }

  /** The inner loop of the second pass: the conflicts of one task's table, appended to `conflicts`. */
  method AppendRenameHits(conflicts: seq<SemanticConflict>, filePath: string, renames: Dict<string, Rename>, taskId: string, table: SymbolTable)
    returns (r: seq<SemanticConflict>)
    requires renames.Valid()
    ensures r == conflicts + RenameHits(filePath, renames, taskId, table.Value(), |renames.keys|)
  {
    r := conflicts;
    var j := 0;
    while j < |renames.keys|
      invariant 0 <= j <= |renames.keys|
      invariant r == conflicts + RenameHits(filePath, renames, taskId, table.Value(), j)
    {
      ghost var before := r;
      var oldName := renames.keys[j];
      assert oldName in renames.keys;
      var rename := renames.entries[oldName];
      if rename.taskId != taskId {
        if table.functionCalls.Has(oldName) {
          var callLines := table.functionCalls.entries[oldName];
          r := r + [RenameConflict(filePath, oldName, rename.newName, rename.taskId, taskId, callLines)];
        }
      }
      assert r == before + NameHit(filePath, renames, taskId, table.Value(), j);
      assert RenameHits(filePath, renames, taskId, table.Value(), j + 1)
        == RenameHits(filePath, renames, taskId, table.Value(), j) + NameHit(filePath, renames, taskId, table.Value(), j);
      j := j + 1;
    }
  }

  /** One step of the second pass: build the task's table from its new version and append the conflicts it raises. */
  method AppendTaskHits(conflicts: seq<SemanticConflict>, filePath: string, renames: Dict<string, Rename>, contents: Dict<string, FileVersions>, parse: Parser, i: nat)
    returns (r: seq<SemanticConflict>)
    requires renames.Valid() && contents.Valid() && i < |contents.keys|
    ensures r == conflicts + TaskHits(filePath, renames, contents, TableBuilder(filePath, parse), i)
  {
    var taskId := contents.keys[i];
    assert taskId in contents.keys;
    var content := contents.entries[taskId].after;
    var table := BuildSymbolTable(filePath, content, parse);
    assert TableBuilder(filePath, parse)(content) == SymbolTableOf(filePath, content, parse);
    r := conflicts;
    if table.Some? {
      r := AppendRenameHits(conflicts, filePath, renames, taskId, table.value);
    }
  }

  /** `detect_function_rename_conflicts`, with the parser passed in. */
  method DetectFunctionRenameConflicts(analyses: Dict<string, FileAnalysis>, contents: Dict<string, FileVersions>, parse: Parser)
    returns (conflicts: seq<SemanticConflict>)
    requires analyses.Valid() && contents.Valid()
    ensures conflicts == FunctionRenameConflicts(analyses, contents, parse)
  {
    conflicts := [];
    if |analyses.keys| == 0 {
      return;
    }
    assert analyses.keys[0] in analyses.keys;
    var filePath := analyses.entries[analyses.keys[0]].filePath;
    var renames := CollectRenames(analyses);
    var i := 0;
    while i < |contents.keys|
      invariant 0 <= i <= |contents.keys|
      invariant conflicts == RenameScan(filePath, renames, contents, TableBuilder(filePath, parse), i)
    {
      conflicts := AppendTaskHits(conflicts, filePath, renames, contents, parse, i);
      ScanStep(filePath, renames, contents, TableBuilder(filePath, parse), i);
      i := i + 1;
    }
    RenameConflictsAreScan(analyses, contents, parse);
  }
}
