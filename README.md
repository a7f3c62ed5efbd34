# Semantic merge conflicts and Linear integration, modelled in Dafny

This project models three parts of Auto-Claude, an autonomous coding tool
that builds a feature as several parallel tasks and then merges their edits.

* **Semantic conflict detection** (`auto-claude/merge/semantic_conflict_detector.py`).
  - When several tasks changed the same Python file, the detector builds a
    symbol table for each task's version of the file. It does this with an
    AST visitor that records definitions, name usages, import bindings,
    call sites and return annotations.
  - It then reports three kinds of conflict:
    - a function one task renamed and another task still calls;
    - an import one task removed whose symbol another task uses without
      importing it;
    - a return annotation one task widened to admit `None`.
  - Each conflict becomes a `ConflictRegion` that needs human review.
* **Linear error handling** (`auto-claude/integrations/linear/error_handling.py`).
  - The classification of a raised error into network, timeout, rate-limit,
    server, authentication, validation or unknown, and whether it is
    transient.
  - The connection cache. It counts consecutive failures, marks the service
    degraded or unavailable, and lets an unavailable status expire.
  - The retry loop with exponential backoff.
  - The cache-gated wrapper with a fallback value that every Linear
    operation goes through.
* **Linear updater** (`auto-claude/integrations/linear/updater.py`).
  - The task state persisted in a spec directory's `.linear_task.json`.
  - The parsing of the agent's answer when a task is created.
  - The status update.
  - The escaping of a comment before it is embedded in the agent's prompt.
  - The comments posted at each build transition.

Modules and files:

| file | module | what it holds |
|---|---|---|
| `wrappers.dfy` | `Wrappers` | `Option` |
| `text.dfy` | `Text` | the string operations the source relies on: `in`, `lower`, `strip`, `split`, `replace`, `str(int)`, f-string rendering |
| `pydict.dfy` | `PyDict` | an insertion-ordered Python `dict` (keys in order plus a map) |
| `python_ast.dfy` | `PythonAst` | the syntax-tree nodes the visitor distinguishes; the parser is a parameter |
| `symbol_table.dfy` | `SymbolTables` | `SymbolTable`, as a value (`Tables`) and as a class updated in place |
| `extractor.dfy` | `Extraction` | `PythonSymbolExtractor` and `build_symbol_table` |
| `conflicts.dfy` | `SemanticConflicts` | `SemanticConflict`, its messages and its constructors for each kind |
| `rename_detector.dfy`, `import_detector.dfy`, `type_detector.dfy` | `RenameDetection`, `ImportDetection`, `TypeDetection` | the three detectors |
| `aggregate.dfy` | `SemanticRegions` | `detect_semantic_conflicts` and the conversion to `ConflictRegion` |
| `linear_errors.dfy` | `LinearErrors` | classification, connection cache, retries, fallback |
| `linear_updater.dfy` | `LinearUpdater` | task state, creation, status, comments |

How the model is built:

* Each detector is specified by a function that computes its result and a
  method that runs the source's loops. The method is proved equal to the
  function.
* Lemmas characterise each specification function in both directions. A
  conflict is reported exactly when a task and a symbol meet the source's
  condition, and a later task overwrites an earlier one in the first pass.
* The retry loop is specified by the recursive run `RunFrom`. The connection
  cache is a class whose state transitions are functions, and the lemmas
  show that those transitions keep the cache's invariant.

## Model

| member | source | states |
|---|---|---|
| SymbolTables.EmptyTables | auto-claude/merge/semantic_conflict_detector.py:84-88 | a new symbol table has all five dicts empty and is well formed |
| SymbolTables.Record | auto-claude/merge/semantic_conflict_detector.py:94-98 | appending a line to a key's list creates the list when the key is absent; the key's list grows by that line at the end, every other key keeps its list, and stored lists stay non-empty |
| SymbolTables.WithDefinition | auto-claude/merge/semantic_conflict_detector.py:90-92 | the name maps to the new definition (last one wins); every other definition is kept, the defined names are the old ones plus this one, and the other four dicts are untouched |
| SymbolTables.WithUsage | auto-claude/merge/semantic_conflict_detector.py:94-98 | the usage line is appended to the name's list; every other name's list and the other four dicts are untouched |
| SymbolTables.WithImport | auto-claude/merge/semantic_conflict_detector.py:100-102 | the symbol maps to the new source (last binding wins); other bindings and the other dicts are kept |
| SymbolTables.WithCall | auto-claude/merge/semantic_conflict_detector.py:104-108 | the call line is appended to the callee's list; the other lists and dicts are kept |
| SymbolTables.WithSignature | auto-claude/merge/semantic_conflict_detector.py:110-112 | the name maps to the new return annotation (possibly `None`); other annotations and dicts are kept |
| SymbolTables.SymbolTable.constructor | auto-claude/merge/semantic_conflict_detector.py:84-88 | the new object holds the empty tables |
| SymbolTables.SymbolTable.AddDefinition | auto-claude/merge/semantic_conflict_detector.py:90-92 | the object's new contents are `WithDefinition` of the old ones |
| SymbolTables.SymbolTable.AddUsage | auto-claude/merge/semantic_conflict_detector.py:94-98 | the new contents are `WithUsage` of the old ones: the list is created when missing, then extended |
| SymbolTables.SymbolTable.AddImport | auto-claude/merge/semantic_conflict_detector.py:100-102 | the new contents are `WithImport` of the old ones |
| SymbolTables.SymbolTable.AddFunctionCall | auto-claude/merge/semantic_conflict_detector.py:104-108 | the new contents are `WithCall` of the old ones |
| SymbolTables.SymbolTable.AddFunctionSignature | auto-claude/merge/semantic_conflict_detector.py:110-112 | the new contents are `WithSignature` of the old ones |
| Extraction.EmptyTablesInvariant | auto-claude/merge/semantic_conflict_detector.py:120-122 | the visitor starts in scope `module` with tables that satisfy the walk invariant |
| Extraction.DefinitionKeepsInvariant | auto-claude/merge/semantic_conflict_detector.py:90-92 | a definition in a reachable scope keeps the walk invariant |
| Extraction.BindingKeepsInvariant | auto-claude/merge/semantic_conflict_detector.py:124-139 | an import binding followed by an `import` definition of the same name keeps the invariant that every imported name is defined |
| Extraction.SignatureKeepsInvariant | auto-claude/merge/semantic_conflict_detector.py:141-171 | a signature recorded for a defined function keeps the invariant that every annotated name is defined |
| Extraction.UsageKeepsInvariant | auto-claude/merge/semantic_conflict_detector.py:196-201 | recording a usage keeps the walk invariant |
| Extraction.CallKeepsInvariant | auto-claude/merge/semantic_conflict_detector.py:203-211 | recording a call keeps the walk invariant |
| Extraction.BindImports | auto-claude/merge/semantic_conflict_detector.py:124-139 | binding an import statement's aliases keeps the invariant, never forgets a definition, and touches only imports and definitions |
| Extraction.DefineTargets | auto-claude/merge/semantic_conflict_detector.py:183-194 | defining an assignment's plain-name targets keeps the invariant, never forgets a definition, and touches only definitions |
| Extraction.VisitNode | auto-claude/merge/semantic_conflict_detector.py:124-211 | visiting any node keeps the invariant (scopes the visitor can be in; imported and annotated names are defined) and never forgets a definition |
| Extraction.VisitNodes | auto-claude/merge/semantic_conflict_detector.py:124-211 | visiting a list of nodes in order keeps the invariant and never forgets a definition |
| Extraction.ImportBindingWins | auto-claude/merge/semantic_conflict_detector.py:124-139 | the last alias of an import statement to bind a name decides that name's import source (plain name, or `module.name` for `from … import`) and makes it an `import` definition at the statement's line and scope |
| Extraction.ImportBindingOthers | auto-claude/merge/semantic_conflict_detector.py:124-139 | a name that no alias binds keeps its import binding and its definition |
| Extraction.ImportShadowedByAssignment | auto-claude/merge/semantic_conflict_detector.py:124-130 | `import os` followed by `os = …` keeps the import binding `os -> os` while the definition of `os` becomes a variable |
| Extraction.AssignmentDefinesVariable | auto-claude/merge/semantic_conflict_detector.py:183-188 | `name = value` makes `name` a variable defined at that line and scope and leaves the import bindings unchanged |
| Extraction.RFind | auto-claude/merge/semantic_conflict_detector.py:225 | the index found holds the character and no later index does; -1 means the character is absent |
| Extraction.BaseName | auto-claude/merge/semantic_conflict_detector.py:225 | the file name is the last path component, skipping empty components (repeated or trailing `/`) and `.` components; it holds no `/`, is never `.`, and a non-empty name occurs in the path |
| Extraction.BaseNameIgnoresTrailing | auto-claude/merge/semantic_conflict_detector.py:225 | a trailing `/` or `/.` leaves the file name unchanged, so `pkg/mod.py/` is still a `.py` path |
| Extraction.BaseNameOfComponent | auto-claude/merge/semantic_conflict_detector.py:225 | the file name of `dir/name` is `name` for every proper component `name` |
| Extraction.Suffix | auto-claude/merge/semantic_conflict_detector.py:225 | a non-empty suffix is a proper tail of the file name that starts with its only `.` and has at least one character after it |
| Extraction.PythonSuffix | auto-claude/merge/semantic_conflict_detector.py:225-226 | the suffix test accepts a path exactly when its file name is longer than three characters and ends in `.py` in any case |
| Extraction.SymbolTableOf | auto-claude/merge/semantic_conflict_detector.py:214-241 | a table exists only for a `.py` path whose content parses, and it satisfies the walk invariant |
| Extraction.TableBuilder | auto-claude/merge/semantic_conflict_detector.py:214-241 | building for a fixed path gives, for every content, exactly `SymbolTableOf` |
| Extraction.PythonSymbolExtractor.constructor | auto-claude/merge/semantic_conflict_detector.py:120-122 | the visitor owns a fresh, empty symbol table and starts in scope `module` |
| Extraction.PythonSymbolExtractor.BindAliases | auto-claude/merge/semantic_conflict_detector.py:124-139 | the in-place table ends as `BindImports` of its old contents in the current scope |
| Extraction.PythonSymbolExtractor.VisitAll | auto-claude/merge/semantic_conflict_detector.py:130 | the generic visit of a node list leaves the table as `VisitNodes` of the old one and restores the scope |
| Extraction.PythonSymbolExtractor.VisitInScope | auto-claude/merge/semantic_conflict_detector.py:150-155 | a body is walked in the function's or class's scope, and the previous scope is restored afterwards |
| Extraction.PythonSymbolExtractor.DefineAssignTargets | auto-claude/merge/semantic_conflict_detector.py:183-187 | the in-place table ends as `DefineTargets` of its old contents |
| Extraction.PythonSymbolExtractor.VisitDefinition | auto-claude/merge/semantic_conflict_detector.py:141-181 | a function, async function or class definition leaves the table as `VisitNode` says, with the scope restored |
| Extraction.PythonSymbolExtractor.VisitAssignment | auto-claude/merge/semantic_conflict_detector.py:183-194 | an assignment or annotated assignment leaves the table as `VisitNode` says |
| Extraction.PythonSymbolExtractor.VisitCall | auto-claude/merge/semantic_conflict_detector.py:203-211 | a call records its callee (plain name or method attribute), then walks callee and arguments, as `VisitNode` says |
| Extraction.PythonSymbolExtractor.Visit | auto-claude/merge/semantic_conflict_detector.py:124-211 | visiting any node in place gives exactly `VisitNode` of the old table, and the scope is unchanged afterwards |
| Extraction.BuildSymbolTable | auto-claude/merge/semantic_conflict_detector.py:214-241 | returns no table exactly when `SymbolTableOf` has none, and otherwise a fresh table holding exactly `SymbolTableOf`'s contents |
| SemanticConflicts.SuggestionsHaveText | auto-claude/merge/semantic_conflict_detector.py:304 | every suggestion a detector writes (here and at lines 369 and 467) has non-empty text |
| SemanticConflicts.ImportConflictNamesSymbol | auto-claude/merge/semantic_conflict_detector.py:365-366 | an import-removal description names the removed symbol |
| SemanticConflicts.RenameConflictNamesFunction | auto-claude/merge/semantic_conflict_detector.py:300-301 | a rename description names the old function name |
| SemanticConflicts.TypeChangeConflictMentionsNone | auto-claude/merge/semantic_conflict_detector.py:462-464 | a type-change description mentions `None` |
| RenameDetection.RecordRenames | auto-claude/merge/semantic_conflict_detector.py:273-280 | recording one task's renames keeps the dict valid |
| RenameDetection.RenamesUpTo | auto-claude/merge/semantic_conflict_detector.py:272-280 | the renames recorded from the first tasks form a valid dict |
| RenameDetection.RecordRenamesSpec | auto-claude/merge/semantic_conflict_detector.py:273-280 | within one task, a function it renames (with both code versions non-empty) maps to `(name, task)`; every other entry is kept and no other name is added |
| RenameDetection.RenamesRecorded | auto-claude/merge/semantic_conflict_detector.py:272-280 | a name is recorded exactly when some task renames it |
| RenameDetection.RenamesLastWins | auto-claude/merge/semantic_conflict_detector.py:272-280 | a recorded name's "new name" is the name itself, and its task is the last task, in the analyses' order, that renames it |
| RenameDetection.NameHitExactly | auto-claude/merge/semantic_conflict_detector.py:288-306 | one old name gives a conflict for a task exactly when another task renamed it and this task's table records a call to it |
| RenameDetection.RenameHitsExactly | auto-claude/merge/semantic_conflict_detector.py:288-306 | a conflict is among one table's hits exactly when one of the renamed names raises it |
| RenameDetection.TaskHitsExactly | auto-claude/merge/semantic_conflict_detector.py:283-306 | a task's conflicts are exactly those its parsed new version raises; a version without a table raises none |
| RenameDetection.RenameScanExactly | auto-claude/merge/semantic_conflict_detector.py:283-306 | a conflict is in the scan of the first tasks exactly when one of those tasks raises it |
| RenameDetection.ScanExactly | auto-claude/merge/semantic_conflict_detector.py:283-306 | the whole scan reports a conflict exactly for some task and some renamed name |
| RenameDetection.RenameConflictsExactly | auto-claude/merge/semantic_conflict_detector.py:244-308 | `detect_function_rename_conflicts` reports a conflict exactly for a task whose new version parses and a function another task renamed, when that task still calls the old name; nothing when there are no analyses |
| RenameDetection.RenameConflictShape | auto-claude/merge/semantic_conflict_detector.py:295-306 | every rename conflict is HIGH, in the analysed file, at `function:<old>`, pairs the renaming task with a different task of the contents, sits at the first recorded call line, and carries the described message, suggestion and metadata |
| RenameDetection.ScanStep | auto-claude/merge/semantic_conflict_detector.py:283-306 | one more task extends the scan by exactly that task's conflicts |
| RenameDetection.RenameConflictsAreScan | auto-claude/merge/semantic_conflict_detector.py:264-306 | with analyses present, the result is the scan of every task against the recorded renames |
| RenameDetection.CollectRenames | auto-claude/merge/semantic_conflict_detector.py:272-280 | the first loop records exactly `RenamesUpTo` over all analyses |
| RenameDetection.AppendRenameHits | auto-claude/merge/semantic_conflict_detector.py:288-306 | the inner loop appends exactly the table's hits against every rename to the conflicts found so far |
| RenameDetection.AppendTaskHits | auto-claude/merge/semantic_conflict_detector.py:284-306 | one outer step appends exactly the task's hits, and nothing when its new version yields no table |
| RenameDetection.DetectFunctionRenameConflicts | auto-claude/merge/semantic_conflict_detector.py:244-308 | the method's result equals `FunctionRenameConflicts` |
| ImportDetection.RecordRemovals | auto-claude/merge/semantic_conflict_detector.py:340-343 | recording one task's removals keeps the dict valid |
| ImportDetection.RemovalsUpTo | auto-claude/merge/semantic_conflict_detector.py:339-343 | the removals recorded from the first tasks form a valid dict |
| ImportDetection.RecordRemovalsSpec | auto-claude/merge/semantic_conflict_detector.py:340-343 | within one task, a symbol whose import it removes maps to that task; every other entry is kept and no other symbol is added |
| ImportDetection.RemovalsRecorded | auto-claude/merge/semantic_conflict_detector.py:339-343 | a symbol is recorded exactly when some task removes its import |
| ImportDetection.RemovalsLastWins | auto-claude/merge/semantic_conflict_detector.py:339-343 | a recorded symbol maps to the last task, in the analyses' order, that removes its import |
| ImportDetection.SymbolHitExactly | auto-claude/merge/semantic_conflict_detector.py:351-371 | one removed symbol gives a conflict for a task exactly when another task removed it and this task's table uses it without importing it |
| ImportDetection.RemovalHitsExactly | auto-claude/merge/semantic_conflict_detector.py:351-371 | a conflict is among one table's hits exactly when one of the removed symbols raises it |
| ImportDetection.TaskHitsExactly | auto-claude/merge/semantic_conflict_detector.py:346-371 | a task's conflicts are exactly those its parsed new version raises; a version without a table raises none |
| ImportDetection.RemovalScanExactly | auto-claude/merge/semantic_conflict_detector.py:346-371 | a conflict is in the scan of the first tasks exactly when one of those tasks raises it |
| ImportDetection.ScanExactly | auto-claude/merge/semantic_conflict_detector.py:346-371 | the whole scan reports a conflict exactly for some task and some removed symbol |
| ImportDetection.ImportConflictsExactly | auto-claude/merge/semantic_conflict_detector.py:311-373 | `detect_import_removal_conflicts` reports a conflict exactly for a task whose new version parses and a symbol another task un-imported, when that task uses it and does not import it; nothing when there are no analyses |
| ImportDetection.ImportConflictShape | auto-claude/merge/semantic_conflict_detector.py:360-371 | every import conflict is CRITICAL, in the analysed file, at `import:<symbol>`, pairs the removing task with a different task of the contents, sits at the first usage line, and carries the described message, suggestion and metadata |
| ImportDetection.ScanStep | auto-claude/merge/semantic_conflict_detector.py:346-371 | one more task extends the scan by exactly that task's conflicts |
| ImportDetection.ImportConflictsAreScan | auto-claude/merge/semantic_conflict_detector.py:331-371 | with analyses present, the result is the scan of every task against the recorded removals |
| ImportDetection.CollectRemovals | auto-claude/merge/semantic_conflict_detector.py:339-343 | the first loop records exactly `RemovalsUpTo` over all analyses |
| ImportDetection.AppendRemovalHits | auto-claude/merge/semantic_conflict_detector.py:351-371 | the inner loop appends exactly the table's hits against every removal |
| ImportDetection.AppendTaskHits | auto-claude/merge/semantic_conflict_detector.py:347-371 | one outer step appends exactly the task's hits, and nothing when its new version yields no table |
| ImportDetection.DetectImportRemovalConflicts | auto-claude/merge/semantic_conflict_detector.py:311-373 | the method's result equals `ImportRemovalConflicts` |
| TypeDetection.TaskTablesOf | auto-claude/merge/semantic_conflict_detector.py:432-434 | one pair of tables per task, in the order of the contents, each built from that task's two versions |
| TypeDetection.TaskTablesUsable | auto-claude/merge/semantic_conflict_detector.py:432-437 | every built table's signature dict is valid |
| TypeDetection.RecordSignatureChanges | auto-claude/merge/semantic_conflict_detector.py:440-446 | comparing one task's signatures keeps the dict valid |
| TypeDetection.RecordTaskChanges | auto-claude/merge/semantic_conflict_detector.py:432-446 | one task's contribution keeps the dict valid |
| TypeDetection.TypeChangesFrom | auto-claude/merge/semantic_conflict_detector.py:432-446 | the changes recorded from the first tasks form a valid dict |
| TypeDetection.AllTypeChanges | auto-claude/merge/semantic_conflict_detector.py:432-446 | the first pass over every task gives a valid dict |
| TypeDetection.RecordSignatureChangesSpec | auto-claude/merge/semantic_conflict_detector.py:440-446 | a function annotated in both versions with different annotations is recorded with `(old, new, task)`; every other entry is kept and nothing else is added |
| TypeDetection.RecordTaskChangesSpec | auto-claude/merge/semantic_conflict_detector.py:432-446 | a task both of whose versions parse records each function it re-annotated; a task with a missing table records nothing |
| TypeDetection.TypeChangesRecorded | auto-claude/merge/semantic_conflict_detector.py:432-446 | a function is recorded exactly when some task changed its annotation |
| TypeDetection.TypeChangesLastWins | auto-claude/merge/semantic_conflict_detector.py:432-446 | a recorded function carries the two annotations of the last task that changed it |
| TypeDetection.ChangeHitExactly | auto-claude/merge/semantic_conflict_detector.py:449-469 | one recorded change gives a conflict exactly when both annotations are non-empty and only the new one contains `None` |
| TypeDetection.ChangeHitsExactly | auto-claude/merge/semantic_conflict_detector.py:449-469 | a conflict is among the hits of the recorded changes exactly when one of them raises it |
| TypeDetection.TypeChangeConflictsExactly | auto-claude/merge/semantic_conflict_detector.py:404-471 | `detect_type_change_conflicts` reports a conflict exactly for a recorded change that adds `None`; nothing when there are no analyses |
| TypeDetection.TypeChangeConflictShape | auto-claude/merge/semantic_conflict_detector.py:432-469 | every type conflict is MEDIUM, at line 0, at `function:<name>`, names one task, the last whose versions gave the function different annotations, with `None` only in the new one |
| TypeDetection.CompareSignatures | auto-claude/merge/semantic_conflict_detector.py:440-446 | the inner loop records exactly `RecordSignatureChanges` over all of the new version's signatures |
| TypeDetection.AddTaskTypeChanges | auto-claude/merge/semantic_conflict_detector.py:433-446 | one outer step records exactly the task's contribution |
| TypeDetection.TaskTablesAt | auto-claude/merge/semantic_conflict_detector.py:433-434 | a task's tables are `build_symbol_table` of its before and after versions |
| TypeDetection.TypeChangesStep | auto-claude/merge/semantic_conflict_detector.py:432-446 | one more task extends the recorded changes by that task's contribution |
| TypeDetection.CollectTypeChanges | auto-claude/merge/semantic_conflict_detector.py:432-446 | the first loop records exactly `AllTypeChanges` |
| TypeDetection.DetectTypeChangeConflicts | auto-claude/merge/semantic_conflict_detector.py:404-471 | the method's result equals `TypeChangeConflicts` |
| SemanticRegions.DetectVariableRenameConflicts | auto-claude/merge/semantic_conflict_detector.py:376-401 | the variable-rename detector reports nothing |
| SemanticRegions.Repeat | auto-claude/merge/semantic_conflict_detector.py:530 | the change-type list has one entry per task, each the same |
| SemanticRegions.MapSeq | auto-claude/merge/semantic_conflict_detector.py:507-535 | the conversion gives one result per input, in order |
| SemanticRegions.Combined | auto-claude/merge/semantic_conflict_detector.py:496-502 | the collected list is as long as the four detectors' results together |
| SemanticRegions.InCombined | auto-claude/merge/semantic_conflict_detector.py:496-502 | every collected conflict comes from one of the detectors |
| SemanticRegions.ReasonNamesKindAndDescription | auto-claude/merge/semantic_conflict_detector.py:521-524 | the reason starts with `[Semantic: <kind>] `, contains the description, and ends with ` Suggestion: <text>` when there is a non-empty suggestion |
| SemanticRegions.RegionOfConflict | auto-claude/merge/semantic_conflict_detector.py:526-535 | a region keeps the conflict's file, location, tasks and severity, has one change type per task, cannot auto-merge and needs a human |
| SemanticRegions.RegionsInDetectorOrder | auto-claude/merge/semantic_conflict_detector.py:496-535 | the regions are those of the rename conflicts, then the import conflicts, then the type conflicts |
| SemanticRegions.ReportedRegion | auto-claude/merge/semantic_conflict_detector.py:507-535 | a conflict of the shape the detectors report becomes a human-review region with a known change type matching its severity and a reason carrying a suggestion |
| SemanticRegions.RenamesReported | auto-claude/merge/semantic_conflict_detector.py:295-306 | every rename conflict has the reported shape |
| SemanticRegions.ImportsReported | auto-claude/merge/semantic_conflict_detector.py:360-371 | every import conflict has the reported shape |
| SemanticRegions.TypesReported | auto-claude/merge/semantic_conflict_detector.py:457-469 | every type conflict has the reported shape |
| SemanticRegions.DetectorsReport | auto-claude/merge/semantic_conflict_detector.py:496-502 | every collected conflict has the reported shape |
| SemanticRegions.SemanticRegionShape | auto-claude/merge/semantic_conflict_detector.py:474-537 | every region `detect_semantic_conflicts` returns is in the analysed file, needs a human, and has a known change type per task that matches its severity |
| SemanticRegions.RegionFor | auto-claude/merge/semantic_conflict_detector.py:508-535 | the loop body builds exactly `ToRegion` of the conflict |
| SemanticRegions.ConvertConflicts | auto-claude/merge/semantic_conflict_detector.py:507-535 | the conversion loop gives one region per conflict, in order |
| SemanticRegions.CollectConflicts | auto-claude/merge/semantic_conflict_detector.py:494-502 | the detectors' results, appended in turn, are exactly `AllConflicts` |
| SemanticRegions.Extend | auto-claude/merge/semantic_conflict_detector.py:496-502 | four `extend` calls on an empty list give the four lists in order |
| SemanticRegions.DetectSemanticConflicts | auto-claude/merge/semantic_conflict_detector.py:474-537 | the method's result equals `SemanticConflictRegions`: empty without analyses, else the regions of all conflicts |
| LinearErrors.ClassifyError | auto-claude/integrations/linear/error_handling.py:167-243 | an error is transient exactly when it is not an authentication or validation error; the message is the type's prefix followed by the error text, and the original error is kept |
| LinearErrors.NetworkSignals | auto-claude/integrations/linear/error_handling.py:181-190 | a network error is signalled exactly by `network`, `connection`, `dns` or `unreachable` in the lower-cased text |
| LinearErrors.TimeoutSignals | auto-claude/integrations/linear/error_handling.py:193-199 | a timeout is signalled exactly by `timeout` in the text or an `asyncio.TimeoutError` |
| LinearErrors.RateLimitSignals | auto-claude/integrations/linear/error_handling.py:202-208 | a rate limit is signalled exactly by `rate limit` or `429` in the text |
| LinearErrors.ServerSignals | auto-claude/integrations/linear/error_handling.py:211-217 | a server error is signalled exactly by `500`, `502` or `503` in the text |
| LinearErrors.AuthSignals | auto-claude/integrations/linear/error_handling.py:220-226 | an authentication error is signalled exactly by `auth`, `unauthorized` or `forbidden` in the text |
| LinearErrors.ValidationSignals | auto-claude/integrations/linear/error_handling.py:229-235 | a validation error is signalled exactly by `validation` or `invalid` in the text |
| LinearErrors.ClassifyFollowsPriority | auto-claude/integrations/linear/error_handling.py:181-243 | the classifier picks the first type, in the order network, timeout, rate limit, server, authentication, validation, that the error signals |
| LinearErrors.FirstSignalledIsFirst | auto-claude/integrations/linear/error_handling.py:181-235 | a signalled type with no signalled type before it is the one picked |
| LinearErrors.FirstSignalledIsSignalled | auto-claude/integrations/linear/error_handling.py:181-235 | the type picked, unless unknown, is signalled and nothing before it is |
| LinearErrors.NothingSignalledIsUnknown | auto-claude/integrations/linear/error_handling.py:238-243 | the error is unknown exactly when no type is signalled |
| LinearErrors.AfterFailure | auto-claude/integrations/linear/error_handling.py:107-128 | a failure adds one to the counter and remembers the error; the cache becomes unavailable, cached at `now`, exactly on a permanent error or at the threshold, and degraded otherwise |
| LinearErrors.AfterExpiryCheck | auto-claude/integrations/linear/error_handling.py:137-147 | an unavailable status older than the cache duration becomes degraded with one failure on record; any other state is unchanged |
| LinearErrors.TransitionsKeepConsistency | auto-claude/integrations/linear/error_handling.py:92-147 | a new cache is consistent (available iff no failures iff no error; unavailable carries a time; never disabled), and a failure or an expiry check keeps it so |
| LinearErrors.AdmitsUnlessCachedUnavailable | auto-claude/integrations/linear/error_handling.py:130-152 | a consistent cache refuses calls exactly when it is unavailable and its cached time has not expired |
| LinearErrors.FailuresReachThreshold | auto-claude/integrations/linear/error_handling.py:107-128 | after n more failures the counter has grown by n, and once it reaches the threshold the cache is unavailable, even if every error was transient |
| LinearErrors.ConnectionCache.constructor | auto-claude/integrations/linear/error_handling.py:80-98 | a new cache keeps its threshold and duration and is fresh and available |
| LinearErrors.ConnectionCache.RecordSuccess | auto-claude/integrations/linear/error_handling.py:100-105 | after a success the cache is fresh again |
| LinearErrors.ConnectionCache.RecordFailure | auto-claude/integrations/linear/error_handling.py:107-128 | the cache moves to `AfterFailure` of its old state and stays consistent |
| LinearErrors.ConnectionCache.IsAvailable | auto-claude/integrations/linear/error_handling.py:130-152 | the cache moves to `AfterExpiryCheck` of its old state, answers whether it now admits calls, and stays consistent |
| LinearErrors.ConnectionCache.GetStatus | auto-claude/integrations/linear/error_handling.py:154-156 | the status is never disabled, and is available exactly when there are no consecutive failures |
| LinearErrors.ConnectionCache.GetLastError | auto-claude/integrations/linear/error_handling.py:158-160 | an error is remembered exactly when the cache is not available |
| LinearErrors.ErrorHandling.constructor | auto-claude/integrations/linear/error_handling.py:164 | the module's cache starts fresh, with 3 failures and 300 seconds |
| LinearErrors.ErrorHandling.ResetConnectionCache | auto-claude/integrations/linear/error_handling.py:404-408 | a fresh default cache replaces the old one |
| LinearErrors.NextDelay | auto-claude/integrations/linear/error_handling.py:308 | the next delay is the smaller of the product with the base and the maximum: it is one of the two and exceeds neither |
| LinearErrors.CacheAfterRun | auto-claude/integrations/linear/error_handling.py:272-312 | a successful run resets the cache; a failed run that recorded an error is one `record_failure` of it (one more consecutive failure, that error kept as the last one); a run that recorded no error leaves the cache unchanged |
| LinearErrors.RunFromAttempts | auto-claude/integrations/linear/error_handling.py:272-312 | a run from a given attempt ends no later than the last attempt allowed, waits once per retry, retried only transient errors, succeeds exactly when its last call returned, and otherwise records that call's classified error, stopping early only on a permanent one |
| LinearErrors.RunFromWaits | auto-claude/integrations/linear/error_handling.py:307-308 | the waits start at the current delay and each next one is `NextDelay` of the previous |
| LinearErrors.RetryAttempts | auto-claude/integrations/linear/error_handling.py:269-318 | at most `max_retries + 1` calls, and none when that is negative; every call but the last raised a transient error; success exactly when the last call returned, with its value; an early stop is a permanent error; a failed run records exactly the last error |
| LinearErrors.PermanentErrorStops | auto-claude/integrations/linear/error_handling.py:295-300 | a permanent error ends the run at once, and the run fails |
| LinearErrors.RetryBackoff | auto-claude/integrations/linear/error_handling.py:269-308 | the delays start at the initial delay, grow by `NextDelay`, and after the first never exceed the maximum |
| LinearErrors.RetryKeepsCacheConsistent | auto-claude/integrations/linear/error_handling.py:272-312 | a run keeps a consistent cache consistent and records at most one failure; a failed run that made attempts records exactly one, with the error it classified last |
| LinearErrors.RunAttempts | auto-claude/integrations/linear/error_handling.py:272-308 | the attempt loop's run equals the recursive run `RetryWith` |
| LinearErrors.RetryWithBackoff | auto-claude/integrations/linear/error_handling.py:246-318 | success, result and delays are those of `Retry`, and the cache ends as `CacheAfterRun` of the run |
| LinearErrors.WithFallback | auto-claude/integrations/linear/error_handling.py:321-371 | a refusing cache gives the fallback without any call; otherwise the calls are those of the retries, whose value is returned on success (with the cache reset) and the fallback on failure, and the cache ends as `CacheAfterRun` of the run: a failed run adds one consecutive failure and stores its last error |
| LinearErrors.FallbackKeepsCacheConsistent | auto-claude/integrations/linear/error_handling.py:350-362 | going through the wrapper keeps a consistent cache consistent |
| LinearErrors.LinearOperationWithFallback | auto-claude/integrations/linear/error_handling.py:321-371 | the method's result and the cache's new state are those of `WithFallback` |
| LinearUpdater.LinearTaskState.ToDict | auto-claude/integrations/linear/updater.py:80-87 | the dict has exactly the five snake-case keys, each holding its field |
| LinearUpdater.FromDict | auto-claude/integrations/linear/updater.py:89-97 | absent keys give `None`, except the status, which defaults to `Todo` |
| LinearUpdater.FromDictToDict | auto-claude/integrations/linear/updater.py:80-97 | reading back what `to_dict` wrote gives the same state |
| LinearUpdater.ToDictFromDict | auto-claude/integrations/linear/updater.py:80-97 | a dict with exactly the five keys is what `to_dict` writes for the state read from it |
| LinearUpdater.SpecDir.constructor | auto-claude/integrations/linear/updater.py:105-116 | a spec directory holds the given contents of its task file |
| LinearUpdater.SpecDir.Save | auto-claude/integrations/linear/updater.py:99-103 | after saving, the file holds the state's dict and loading it gives the state back |
| LinearUpdater.SpecDir.Load | auto-claude/integrations/linear/updater.py:105-116 | a state is loaded exactly when the file is there; a file with the five `to_dict` keys reads back to a state whose `to_dict` is that file, and a missing status reads as `Todo` |
| LinearUpdater.LastMatchIsLast | auto-claude/integrations/linear/updater.py:309-314 | nothing is found exactly when no line matches; otherwise the value comes from a matching line that no later line overrides |
| LinearUpdater.TaskIdOfIsLast | auto-claude/integrations/linear/updater.py:306-312 | with `lines` the answer's lines, `TaskIdOf` finds no task id exactly when no stripped line starts with `TASK_ID:`; otherwise the id is the value of the last such line |
| LinearUpdater.TeamIdOfIsLast | auto-claude/integrations/linear/updater.py:306-314 | with `lines` the answer's lines, `TeamIdOf` finds no team id exactly when no line is a `TEAM_ID:` line that is not a task line; otherwise the id is the value of the last such line |
| LinearUpdater.ParseResponse | auto-claude/integrations/linear/updater.py:306-314 | the parse loop yields the value of the last `TASK_ID:` line and of the last `TEAM_ID:` line |
| LinearUpdater.ParsedIdsAreStripped | auto-claude/integrations/linear/updater.py:310-314 | a non-empty parsed id neither starts nor ends with whitespace |
| LinearUpdater.CreateLinearTask | auto-claude/integrations/linear/updater.py:238-331 | no task when disabled or unavailable; an existing task with an id is returned without a call; otherwise the agent is asked, and only an answer with a task id creates and saves a `Todo` state with the given title, parsed team id and timestamp |
| LinearUpdater.UpdateLinearStatus | auto-claude/integrations/linear/updater.py:334-387 | false without Linear or a stored task; true without a call when the status is already set; otherwise one call, and the new status is saved exactly when the agent answers |
| LinearUpdater.EscapeComment | auto-claude/integrations/linear/updater.py:416 | the two replacements equal escaping each character on its own: a quote becomes `\"`, a newline `\n`, every other character stays; the result holds no newline |
| LinearUpdater.UnescapeEscape | auto-claude/integrations/linear/updater.py:416 | a comment without backslashes is recovered from its escaped form |
| LinearUpdater.BackslashNAmbiguous | auto-claude/integrations/linear/updater.py:416 | a literal backslash-n and a newline escape to the same text |
| LinearUpdater.AddLinearComment | auto-claude/integrations/linear/updater.py:390-434 | false and nothing sent without Linear or a stored task; otherwise the escaped comment is sent and the result is whether the agent answered |
| LinearUpdater.FailedCommentCarriesSummaryPrefix | auto-claude/integrations/linear/updater.py:523-525 | a failure comment carries at most the first 200 characters of the error summary, and all of a short one |
| LinearUpdater.SubtaskCompletedComment | auto-claude/integrations/linear/updater.py:490-492 | the completion comment names the subtask, the completed count and the total |
| LinearUpdater.SubtaskFailedComment | auto-claude/integrations/linear/updater.py:523-525 | the failure comment names the subtask and the attempt |
| LinearUpdater.QaRejectedComment | auto-claude/integrations/linear/updater.py:625-627 | the QA-rejected comment names the iteration and the number of issues |
| LinearUpdater.QaMaxIterationsComment | auto-claude/integrations/linear/updater.py:651-653 | the max-iterations comment names the number of iterations |
| LinearUpdater.TaskStuckComment | auto-claude/integrations/linear/updater.py:682 | the stuck comment names the subtask and the number of attempts |
| LinearUpdater.MoveAndComment | auto-claude/integrations/linear/updater.py:454-460 | the result is that of the status update; the comment is sent, escaped, only when the update succeeded, and then the stored status is the new one |
| LinearUpdater.LinearTaskStarted | auto-claude/integrations/linear/updater.py:441-465 | nothing happens without Linear or a stored task id; otherwise it succeeds exactly when the task already was `In Progress` or the status call got an answer; on success the stored status is `In Progress` and the build-started comment is sent, and on failure the task file is unchanged and no comment is sent |
| LinearUpdater.LinearQaStarted | auto-claude/integrations/linear/updater.py:557-579 | nothing happens without Linear or a stored task id; otherwise it succeeds exactly when the task already was `In Review` or the status call got an answer; on success the stored status is `In Review` and the QA-started comment is sent, and on failure the task file is unchanged and no comment is sent |

## Left out

- Logging, `print` and the debug output of every function are not modelled.
- `ast.parse` and `ast.unparse` are not modelled. The parser is a parameter that gives the module's statements, or `None` where the source's `try` block raises (a `SyntaxError` or any other exception from `ast.parse`). A return annotation is the text `ast.unparse` would give.
- Extraction.SymbolTableOf: the walk of a parsed module always finishes. The source's `except Exception` also gives `None` when the visitor itself raises (a `RecursionError` on very deeply nested code), and that case is not modelled.
- Only the node kinds the visitor distinguishes are separate. Every other node is `Other`, with its children in the generic visitor's order.
- The `ConflictRegion`, `MergeStrategy` and `ChangeType` types of `merge/types.py` are not part of this model. Only the fields and values the conversion uses are declared.
- Lower-casing in `build_symbol_table` and `classify_error` is ASCII-only. Python's Unicode case mapping is not modelled.
- The class name that `classify_error` computes is never used by the source, so it is not modelled.
- Wall-clock time is the parameter `now`. Delays, durations and timestamps are whole numbers rather than floats.
- One `now` serves the whole of `retry_with_backoff`, so a failure is cached at that time rather than at the moment the last attempt failed.
- `asyncio.sleep` is the list of delays slept. `asyncio.wait_for` and its timeout are folded into the outcome of each call, where a timeout is a `Raised` outcome.
- LinearErrors.RetryWithBackoff: updates the cache once, after the attempt loop. The source records a success inside the loop; the two are indistinguishable to a caller, since nothing else runs between them.
- Concurrency between operations that share the module-level connection cache is not modelled.
- `is_linear_available`, `get_linear_status` and `get_last_linear_error` only delegate to the cache (`IsAvailable`, `GetStatus`, `GetLastError`), so they have no member of their own. `log_linear_status` only logs.
- `is_linear_enabled` and `get_linear_api_key` read the environment; whether Linear is enabled is a parameter.
- The Linear agent is not modelled: `_create_linear_client`, `_run_linear_agent` and the prompts it is given. Each agent call is the answer it produced, `None` when it failed after its retries.
- The title and description that go into the creation prompt are not modelled, nor the status and ids that go into the status prompt. Only the escaped comment body is modelled.
- `.linear_task.json` is the `SpecDir` field that holds its decoded contents. A missing or unreadable file is `None`, and JSON values other than strings and `null` are not modelled.
- LinearUpdater.LinearTaskStarted: the `try`/`except` of each transition helper is not modelled, since nothing modelled raises.
- The comment-only helpers have no method of their own: `linear_subtask_completed`, `linear_subtask_failed`, `linear_build_complete`, `linear_qa_approved`, `linear_qa_rejected`, `linear_qa_max_iterations` and `linear_task_stuck`. Each sends one comment through `AddLinearComment`, and its comment text is a function.
- Backslashes in a comment are not escaped (`BackslashNAmbiguous`). This is the source's behaviour, and no corrected version is modelled.
