/**
 * `detect_type_change_conflicts`: a task changed a function's return
 * annotation so that it now admits `None` where it did not before.
 */
module TypeDetection {
  import opened Wrappers
  import opened Text
  import opened PyDict
  import opened PythonAst
  import opened SymbolTables
  import opened Extraction
  import opened SemanticConflicts

  /** `(old_type, new_type, task_id)`, the value the first pass stores under a function name. */
  datatype TypeChange = TypeChange(oldType: Option<string>, newType: Option<string>, taskId: string)

  /** One task's two symbol tables, `None` where `build_symbol_table` gives none. */
  datatype TaskTables = TaskTables(taskId: string, before: Option<Tables>, after: Option<Tables>)

  /** The tables of the task at index `i` of `contents`, each version's table being `build` of its text. */
  function TablesOfTask(contents: Dict<string, FileVersions>, build: string -> Option<Tables>, i: nat): TaskTables
    requires contents.Valid() && i < |contents.keys|
  {
    var taskId := contents.keys[i];
    assert taskId in contents.keys;
    TaskTables(taskId, build(contents.entries[taskId].before), build(contents.entries[taskId].after))
  }

  /** The tables of every task, in the order of `contents`. */
  function TaskTablesOf(contents: Dict<string, FileVersions>, build: string -> Option<Tables>): (r: seq<TaskTables>)
    requires contents.Valid()
    ensures |r| == |contents.keys|
    ensures forall i :: 0 <= i < |r| ==> r[i] == TablesOfTask(contents, build, i)
  {
    seq(|contents.keys|, i requires 0 <= i < |contents.keys| => TablesOfTask(contents, build, i))
  }

  /** The new version's annotations, the ones the first pass walks, form a valid dictionary. */
  ghost predicate Usable(t: TaskTables) {
    t.after.Some? ==> t.after.value.signatures.Valid()
  }

  ghost predicate AllUsable(tasks: seq<TaskTables>) {
    forall i :: 0 <= i < |tasks| ==> Usable(tasks[i])
  }

  lemma TaskTablesUsable(contents: Dict<string, FileVersions>, filePath: string, parse: Parser)
    requires contents.Valid()
    ensures AllUsable(TaskTablesOf(contents, TableBuilder(filePath, parse)))
  {
    var tasks := TaskTablesOf(contents, TableBuilder(filePath, parse));
    forall i | 0 <= i < |tasks| ensures Usable(tasks[i]) {
      var taskId := contents.keys[i];
      assert taskId in contents.keys;
      var after := SymbolTableOf(filePath, contents.entries[taskId].after, parse);
      assert tasks[i].after == after;
      if after.Some? {
        assert Invariant(after.value);
      }
    }
  }

  /** Both versions record an annotation for `name`, and the two differ. */
  predicate SignatureChanged(before: Tables, after: Tables, name: string) {
    && before.signatures.Has(name) && after.signatures.Has(name)
    && before.signatures.entries[name] != after.signatures.entries[name]
  }

  /** The functions among the first `n` of the new version's signatures whose annotation changed, recorded against `taskId`. */
  function RecordSignatureChanges(changes: Dict<string, TypeChange>, taskId: string, before: Tables, after: Tables, n: nat): (r: Dict<string, TypeChange>)
    requires n <= |after.signatures.keys|
    ensures changes.Valid() ==> r.Valid()
  {
    if n == 0 then changes
    else
      var r := RecordSignatureChanges(changes, taskId, before, after, n - 1);
      var name := after.signatures.keys[n - 1];
      if SignatureChanged(before, after, name)
      then r.Put(name, TypeChange(before.signatures.entries[name], after.signatures.entries[name], taskId))
      else r
  }

  /** What one task contributes: nothing unless both of its versions yield a table. */
  function RecordTaskChanges(changes: Dict<string, TypeChange>, t: TaskTables): (r: Dict<string, TypeChange>)
    ensures changes.Valid() ==> r.Valid()
  {
    if t.before.None? || t.after.None? then changes
    else RecordSignatureChanges(changes, t.taskId, t.before.value, t.after.value, |t.after.value.signatures.keys|)
  }

  /** The type changes recorded from the first `n` tasks. */
  function TypeChangesFrom(tasks: seq<TaskTables>, n: nat): (r: Dict<string, TypeChange>)
    requires n <= |tasks|
    ensures r.Valid()
  {
    if n == 0 then Empty()
    else RecordTaskChanges(TypeChangesFrom(tasks, n - 1), tasks[n - 1])
  }

  /** The first pass over every task, the tables built from `filePath` with `parse`. */
  function AllTypeChanges(filePath: string, contents: Dict<string, FileVersions>, parse: Parser): (r: Dict<string, TypeChange>)
    requires contents.Valid()
    ensures r.Valid()
  {
    var tasks := TaskTablesOf(contents, TableBuilder(filePath, parse));
    TypeChangesFrom(tasks, |tasks|)
  }

  /** Both versions of task `t` yield a table, and the annotation of `name` differs between them. */
  ghost predicate Changed(t: TaskTables, name: string) {
    t.before.Some? && t.after.Some? && SignatureChanged(t.before.value, t.after.value, name)
  }

  /** The entry task `t` records for `name`. */
  ghost function ChangeOf(t: TaskTables, name: string): TypeChange
    requires Changed(t, name)
  {
    TypeChange(t.before.value.signatures.entries[name], t.after.value.signatures.entries[name], t.taskId)
  }

  /** One of the first `n` functions of the new version's signatures is `name`, and its annotation changed. */
  ghost predicate ChangedAmong(before: Tables, after: Tables, n: nat, name: string) {
    && (exists k :: 0 <= k < n && k < |after.signatures.keys| && after.signatures.keys[k] == name)
    && SignatureChanged(before, after, name)
  }

  /** Within one task, a changed annotation is recorded with its two versions; every other function keeps its entry. */
  lemma {:induction false} RecordSignatureChangesSpec(changes: Dict<string, TypeChange>, taskId: string, before: Tables, after: Tables, n: nat, name: string)
    requires n <= |after.signatures.keys|
    ensures var r := RecordSignatureChanges(changes, taskId, before, after, n);
      && (ChangedAmong(before, after, n, name) ==>
            r.Has(name) && r.entries[name] == TypeChange(before.signatures.entries[name], after.signatures.entries[name], taskId))
      && (!ChangedAmong(before, after, n, name) ==> (r.Has(name) <==> changes.Has(name)))
      && (!ChangedAmong(before, after, n, name) && changes.Has(name) ==> r.entries[name] == changes.entries[name])
  {
    if n > 0 {
      RecordSignatureChangesSpec(changes, taskId, before, after, n - 1, name);
      var keys := after.signatures.keys;
      if keys[n - 1] == name {
        assert name in keys;
        if SignatureChanged(before, after, name) {
          assert ChangedAmong(before, after, n, name);
        }
      } else {
        if ChangedAmong(before, after, n, name) {
          var k :| 0 <= k < n && k < |keys| && keys[k] == name;
          assert ChangedAmong(before, after, n - 1, name);
        }
        if ChangedAmong(before, after, n - 1, name) {
          var k :| 0 <= k < n - 1 && k < |keys| && keys[k] == name;
          assert ChangedAmong(before, after, n, name);
        }
      }
    }
  }

  /** One task's contribution: a function it changed is recorded against it; every other entry is kept. */
  lemma RecordTaskChangesSpec(changes: Dict<string, TypeChange>, t: TaskTables, name: string)
    requires Usable(t)
    ensures var r := RecordTaskChanges(changes, t);
      && (Changed(t, name) ==> r.Has(name) && r.entries[name] == ChangeOf(t, name))
      && (!Changed(t, name) ==> (r.Has(name) <==> changes.Has(name)))
      && (!Changed(t, name) && changes.Has(name) ==> r.entries[name] == changes.entries[name])
  {
    if t.before.Some? && t.after.Some? {
      var signatures := t.after.value.signatures;
      RecordSignatureChangesSpec(changes, t.taskId, t.before.value, t.after.value, |signatures.keys|, name);
      if Changed(t, name) {
        var k :| 0 <= k < |signatures.keys| && signatures.keys[k] == name;
        assert ChangedAmong(t.before.value, t.after.value, |signatures.keys|, name);
      }
    }
  }

  /** A function is recorded exactly when one of the first `n` tasks changed its annotation. */
  lemma {:induction false} TypeChangesRecorded(tasks: seq<TaskTables>, n: nat, name: string)
    requires AllUsable(tasks) && n <= |tasks|
    ensures TypeChangesFrom(tasks, n).Has(name) ==> exists i :: 0 <= i < n && Changed(tasks[i], name)
    ensures forall i :: 0 <= i < n && Changed(tasks[i], name) ==> TypeChangesFrom(tasks, n).Has(name)
  {
    if n > 0 {
      TypeChangesRecorded(tasks, n - 1, name);
      RecordTaskChangesSpec(TypeChangesFrom(tasks, n - 1), tasks[n - 1], name);
      if Changed(tasks[n - 1], name) {
        assert 0 <= n - 1 < n && Changed(tasks[n - 1], name);
      }
    }
  }

  /** The task at index `i` is the last of the first `n` that changed the annotation of `name`. */
  ghost predicate LastChange(tasks: seq<TaskTables>, n: nat, i: int, name: string)
    requires n <= |tasks|
  {
    && 0 <= i < n && Changed(tasks[i], name)
    && forall i' :: i < i' < n ==> !Changed(tasks[i'], name)
  }

  /**
   * `type_changes[func_name] = (old_type, new_type, task_id)`, later tasks
   * overwriting earlier ones: a recorded function carries the two
   * annotations of the last task that changed it.
   */
  lemma {:induction false} TypeChangesLastWins(tasks: seq<TaskTables>, n: nat, name: string)
    requires AllUsable(tasks) && n <= |tasks|
    requires TypeChangesFrom(tasks, n).Has(name)
    ensures exists i :: LastChange(tasks, n, i, name) && TypeChangesFrom(tasks, n).entries[name] == ChangeOf(tasks[i], name)
  {
    var earlier := TypeChangesFrom(tasks, n - 1);
    RecordTaskChangesSpec(earlier, tasks[n - 1], name);
    if Changed(tasks[n - 1], name) {
      assert LastChange(tasks, n, n - 1, name);
    } else {
      TypeChangesLastWins(tasks, n - 1, name);
      var i :| LastChange(tasks, n - 1, i, name) && earlier.entries[name] == ChangeOf(tasks[i], name);
      assert LastChange(tasks, n, i, name);
    }
  }

  /** The condition of the second pass: both annotations present and non-empty, and only the new one mentions `None`. */
  predicate AddsNone(change: TypeChange) {
    && Truthy(change.oldType) && Truthy(change.newType)
    && Contains(change.newType.value, "None") && !Contains(change.oldType.value, "None")
  }

  /** The conflict for the function at index `j` of the type changes, when there is one. */
  ghost predicate HitAt(filePath: string, changes: Dict<string, TypeChange>, j: int, c: SemanticConflict)
    requires changes.Valid()
  {
    && 0 <= j < |changes.keys|
    && var name := changes.keys[j];
    && name in changes.entries
    && var change := changes.entries[name];
    && AddsNone(change)
    && c == TypeChangeConflict(filePath, name, change.oldType.value, change.newType.value, change.taskId)
  }

  /** The conflict, if any, the function at index `j` of the type changes raises. */
  function ChangeHit(filePath: string, changes: Dict<string, TypeChange>, j: nat): seq<SemanticConflict>
    requires changes.Valid() && j < |changes.keys|
  {
    var name := changes.keys[j];
    assert name in changes.keys;
    var change := changes.entries[name];
    if AddsNone(change)
    then [TypeChangeConflict(filePath, name, change.oldType.value, change.newType.value, change.taskId)]
    else []
  }

  /** The conflicts the first `n` type changes raise. */
  function ChangeHits(filePath: string, changes: Dict<string, TypeChange>, n: nat): seq<SemanticConflict>
    requires changes.Valid() && n <= |changes.keys|
  {
    if n == 0 then []
    else ChangeHits(filePath, changes, n - 1) + ChangeHit(filePath, changes, n - 1)
  }

  /** What `detect_type_change_conflicts` returns. */
  function TypeChangeConflicts(analyses: Dict<string, FileAnalysis>, contents: Dict<string, FileVersions>, parse: Parser): seq<SemanticConflict>
    requires analyses.Valid() && contents.Valid()
  {
    if |analyses.keys| == 0 then []
    else
      var filePath := FilePathOf(analyses);
      var changes := AllTypeChanges(filePath, contents, parse);
      ChangeHits(filePath, changes, |changes.keys|)
  }

  /** One recorded change's hit list holds exactly the conflict `HitAt` describes. */
  lemma ChangeHitExactly(filePath: string, changes: Dict<string, TypeChange>, j: nat, c: SemanticConflict)
    requires changes.Valid() && j < |changes.keys|
    ensures c in ChangeHit(filePath, changes, j) <==> HitAt(filePath, changes, j, c)
  {
  }

  /** A conflict is among the hits of the first `n` recorded changes exactly when one of them raises it. */
  lemma {:induction false} ChangeHitsExactly(filePath: string, changes: Dict<string, TypeChange>, n: nat, c: SemanticConflict)
    requires changes.Valid() && n <= |changes.keys|
    ensures c in ChangeHits(filePath, changes, n) ==> exists j :: 0 <= j < n && HitAt(filePath, changes, j, c)
    ensures forall j :: 0 <= j < n && HitAt(filePath, changes, j, c) ==> c in ChangeHits(filePath, changes, n)
  {
    if n > 0 {
      ChangeHitsExactly(filePath, changes, n - 1, c);
      var earlier := ChangeHits(filePath, changes, n - 1);
      var last := ChangeHit(filePath, changes, n - 1);
      assert ChangeHits(filePath, changes, n) == earlier + last;
      ChangeHitExactly(filePath, changes, n - 1, c);
      if c in last {
        assert 0 <= n - 1 < n && HitAt(filePath, changes, n - 1, c);
      }
    }
  }

  /**
   * A conflict is reported exactly for a recorded type change whose old
   * and new annotations are both non-empty and only the new one mentions
   * `None`.
   */
  lemma TypeChangeConflictsExactly(analyses: Dict<string, FileAnalysis>, contents: Dict<string, FileVersions>, parse: Parser, c: SemanticConflict)
    requires analyses.Valid() && contents.Valid()
    ensures c in TypeChangeConflicts(analyses, contents, parse) ==>
      && |analyses.keys| > 0
      && exists j :: HitAt(FilePathOf(analyses), AllTypeChanges(FilePathOf(analyses), contents, parse), j, c)
    ensures |analyses.keys| > 0 ==>
      (exists j :: HitAt(FilePathOf(analyses), AllTypeChanges(FilePathOf(analyses), contents, parse), j, c))
      ==> c in TypeChangeConflicts(analyses, contents, parse)
  {
    if |analyses.keys| > 0 {
      var filePath := FilePathOf(analyses);
      var changes := AllTypeChanges(filePath, contents, parse);
      ChangeHitsExactly(filePath, changes, |changes.keys|, c);
    }
  }

  /**
   * Every type-change conflict is MEDIUM, at line 0, and names one task:
   * the last task, in the order of `contents`, whose two versions give the
   * function different annotations, the old one without `None` and the new
   * one with it.
   */
  lemma TypeChangeConflictShape(analyses: Dict<string, FileAnalysis>, contents: Dict<string, FileVersions>, parse: Parser, c: SemanticConflict)
    requires analyses.Valid() && contents.Valid()
    requires c in TypeChangeConflicts(analyses, contents, parse)
    ensures c.conflictType == "type_change" && c.severity == Medium && c.lineNumber == 0
    ensures c.metadata.TypeInfo? && c.location == "function:" + c.metadata.funcName
    ensures Contains(c.metadata.newType, "None") && !Contains(c.metadata.oldType, "None")
    ensures |c.tasksInvolved| == 1 && c.filePath == FilePathOf(analyses)
    ensures c.description == TypeDescription(c.tasksInvolved[0], c.metadata.funcName, c.metadata.oldType, c.metadata.newType)
    ensures c.suggestion == Some(TypeSuggestion(c.metadata.funcName))
    ensures var tasks := TaskTablesOf(contents, TableBuilder(FilePathOf(analyses), parse));
      exists i :: (LastChange(tasks, |tasks|, i, c.metadata.funcName) && contents.keys[i] == c.tasksInvolved[0]
        && ChangeOf(tasks[i], c.metadata.funcName) == TypeChange(Some(c.metadata.oldType), Some(c.metadata.newType), c.tasksInvolved[0]))
  {
    TypeChangeConflictsExactly(analyses, contents, parse, c);
    var filePath := FilePathOf(analyses);
    var tasks := TaskTablesOf(contents, TableBuilder(filePath, parse));
    TaskTablesUsable(contents, filePath, parse);
    var changes := AllTypeChanges(filePath, contents, parse);
    var j :| HitAt(filePath, changes, j, c);
    TypeChangesLastWins(tasks, |tasks|, changes.keys[j]);
  }

  /** The inner loop of the first pass: compare the annotations of one task's two tables. */
  method CompareSignatures(changes: Dict<string, TypeChange>, taskId: string, before: SymbolTable, after: SymbolTable)
    returns (r: Dict<string, TypeChange>)
    requires after.Valid()
    ensures r == RecordSignatureChanges(changes, taskId, before.Value(), after.Value(), |after.functionSignatures.keys|)
  {
    ghost var b, a := before.Value(), after.Value();
    var oldSignatures, newSignatures := before.functionSignatures, after.functionSignatures;
    r := changes;
    var k := 0;
    while k < |newSignatures.keys|
      invariant 0 <= k <= |newSignatures.keys|
      invariant r == RecordSignatureChanges(changes, taskId, b, a, k)
    {
      var name := newSignatures.keys[k];
      assert name in newSignatures.keys;
      if oldSignatures.Has(name) {
        var oldType := oldSignatures.entries[name];
        var newType := newSignatures.entries[name];
        if oldType != newType {
          r := r.Put(name, TypeChange(oldType, newType, taskId));
        }
      }
      k := k + 1;
    }
  }

  /** One step of the first pass: build both tables of a task and record the annotations that changed. */
  method AddTaskTypeChanges(changes: Dict<string, TypeChange>, filePath: string, contents: Dict<string, FileVersions>, parse: Parser, i: nat)
    returns (r: Dict<string, TypeChange>)
    requires contents.Valid() && i < |contents.keys|
    ensures r == RecordTaskChanges(changes, TaskTablesOf(contents, TableBuilder(filePath, parse))[i])
  {
    TaskTablesAt(contents, filePath, parse, i);
    var taskId := contents.keys[i];
    assert taskId in contents.keys;
    var versions := contents.entries[taskId];
    var before := BuildSymbolTable(filePath, versions.before, parse);
    var after := BuildSymbolTable(filePath, versions.after, parse);
    r := changes;
    if before.Some? && after.Some? {
      r := CompareSignatures(changes, taskId, before.value, after.value);
    }
  }

  /** The tables of task `i` are what `build_symbol_table` gives for its two versions. */
  lemma TaskTablesAt(contents: Dict<string, FileVersions>, filePath: string, parse: Parser, i: nat)
    requires contents.Valid() && i < |contents.keys|
    ensures var versions := contents.entries[contents.keys[i]];
      TaskTablesOf(contents, TableBuilder(filePath, parse))[i]
        == TaskTables(contents.keys[i], SymbolTableOf(filePath, versions.before, parse), SymbolTableOf(filePath, versions.after, parse))
  {
    assert contents.keys[i] in contents.keys;
  }

  /** One more task extends the recorded type changes by that task's contribution. */
  lemma TypeChangesStep(tasks: seq<TaskTables>, i: nat)
    requires i < |tasks|
    ensures TypeChangesFrom(tasks, i + 1) == RecordTaskChanges(TypeChangesFrom(tasks, i), tasks[i])
  {
  }

  /** The first loop of `detect_type_change_conflicts`: the annotation changes of every task. */
  method CollectTypeChanges(filePath: string, contents: Dict<string, FileVersions>, parse: Parser) returns (changes: Dict<string, TypeChange>)
    requires contents.Valid()
    ensures changes == AllTypeChanges(filePath, contents, parse)
  {
    ghost var tasks := TaskTablesOf(contents, TableBuilder(filePath, parse));
    changes := Empty();
    var i := 0;
    while i < |contents.keys|
      invariant 0 <= i <= |contents.keys|
      invariant changes == TypeChangesFrom(tasks, i)
    {
      changes := AddTaskTypeChanges(changes, filePath, contents, parse, i);
      TypeChangesStep(tasks, i);
      i := i + 1;
    }
    assert |tasks| == i;
  }

  /** `detect_type_change_conflicts`, with the parser passed in. */
  method DetectTypeChangeConflicts(analyses: Dict<string, FileAnalysis>, contents: Dict<string, FileVersions>, parse: Parser)
    returns (conflicts: seq<SemanticConflict>)
    requires analyses.Valid() && contents.Valid()
    ensures conflicts == TypeChangeConflicts(analyses, contents, parse)
  {
    conflicts := [];
    if |analyses.keys| == 0 {
      return;
    }
    assert analyses.keys[0] in analyses.keys;
    var filePath := analyses.entries[analyses.keys[0]].filePath;
    var changes := CollectTypeChanges(filePath, contents, parse);
    var j := 0;
    while j < |changes.keys|
      invariant 0 <= j <= |changes.keys|
      invariant conflicts == ChangeHits(filePath, changes, j)
    {
      ghost var before := conflicts;
      var name := changes.keys[j];
      assert name in changes.keys;
      var change := changes.entries[name];
      if Truthy(change.oldType) && Truthy(change.newType) {
        if Contains(change.newType.value, "None") && !Contains(change.oldType.value, "None") {
          conflicts := conflicts + [TypeChangeConflict(filePath, name, change.oldType.value, change.newType.value, change.taskId)];
        }
      }
      assert conflicts == before + ChangeHit(filePath, changes, j);
      j := j + 1;
    }
  }
}
