/**
 * The records the semantic detectors read and write: per-task change
 * analyses, the two versions of the file each task produced, and the
 * `SemanticConflict` records with their fixed wording.
 */
module SemanticConflicts {
  import opened Wrappers
  import opened Text
  import opened PyDict

  /** The change kinds the detectors and the region conversion name; every other kind is `OtherChange`. */
  datatype ChangeType =
    | RenameFunction | RemoveImport | ModifyVariable | ModifyFunction | AddFunction | Unknown
    | OtherChange(name: string)

  /** The severities the detectors assign. */
  datatype Severity = Medium | High | Critical

  /** One change a task made: its kind, the symbol it targets and, when known, the code before and after. */
  datatype SemanticChange = SemanticChange(
    changeType: ChangeType, target: string, contentBefore: Option<string>, contentAfter: Option<string>)

  /** The changes a task made to one file. */
  datatype FileAnalysis = FileAnalysis(filePath: string, changes: seq<SemanticChange>)

  /** `(content_before, content_after)` of one task. */
  datatype FileVersions = FileVersions(before: string, after: string)

  /** The `metadata` dict of each conflict kind. */
  datatype Metadata =
    | RenameInfo(oldName: string, newName: string, callLines: seq<int>)
    | ImportInfo(symbol: string, usageLines: seq<int>)
    | TypeInfo(funcName: string, oldType: string, newType: string)

  /**
   * The f-string messages the detectors write, each kept as the values it
   * interpolates; `Render` produces its text.
   */
  datatype Message =
    | RenameDescription(renameTask: string, oldName: string, newName: string, taskId: string, callLines: seq<int>)
    | RenameSuggestion(oldName: string, newName: string, taskId: string)
    | ImportDescription(removalTask: string, symbol: string, taskId: string, usageLines: seq<int>)
    | ImportSuggestion(taskId: string, symbol: string)
    | TypeDescription(changeTask: string, funcName: string, oldType: string, newType: string)
    | TypeSuggestion(funcName: string)

  /** The pieces of each message's f-string, literal text and interpolated values in order. */
  function Pieces(m: Message): seq<Piece> {
    match m
    case RenameDescription(renameTask, oldName, newName, taskId, callLines) =>
      [Str("Task "), Str(renameTask), Str(" renamed function '"), Str(oldName), Str("' to '"), Str(newName),
       Str("', but task "), Str(taskId), Str(" still calls '"), Str(oldName), Str("' at line(s) "), Ints(callLines)]
    case RenameSuggestion(oldName, newName, taskId) =>
      [Str("Update function calls from '"), Str(oldName), Str("' to '"), Str(newName), Str("' in task "), Str(taskId)]
    case ImportDescription(removalTask, symbol, taskId, usageLines) =>
      [Str("Task "), Str(removalTask), Str(" removed import of '"), Str(symbol), Str("', but task "), Str(taskId),
       Str(" uses it at line(s) "), Ints(usageLines), Str(" without importing it")]
    case ImportSuggestion(taskId, symbol) =>
      [Str("Task "), Str(taskId), Str(" should import '"), Str(symbol), Str("' explicitly")]
    case TypeDescription(changeTask, funcName, oldType, newType) =>
      [Str("Task "), Str(changeTask), Str(" changed return type of '"), Str(funcName), Str("' from '"), Str(oldType),
       Str("' to '"), Str(newType), Str("' (added "), Str("None"), Str("). This may break callers that don't handle None.")]
    case TypeSuggestion(funcName) =>
      [Str("Review all callers of '"), Str(funcName), Str("' to ensure they handle None")]
  }

  /** The text of a message. */
  function Render(m: Message): string {
    Format(Pieces(m))
  }

  /** Every suggestion the detectors write has text. */
  lemma SuggestionsHaveText(m: Message)
    requires m.RenameSuggestion? || m.ImportSuggestion? || m.TypeSuggestion?
    ensures |Render(m)| > 0
  {
    assert Render(m) == RenderPiece(Pieces(m)[0]) + Format(Pieces(m)[1..]);
  }

  datatype SemanticConflict = SemanticConflict(
    conflictType: string,
    filePath: string,
    location: string,
    tasksInvolved: seq<string>,
    description: Message,
    lineNumber: int,
    severity: Severity,
    suggestion: Option<Message>,
    metadata: Metadata)

  /** The file path of the first analysis, in the dict's order. */
  function FilePathOf(analyses: Dict<string, FileAnalysis>): string
    requires analyses.Valid() && |analyses.keys| > 0
  {
    assert analyses.keys[0] in analyses.keys;
    analyses.entries[analyses.keys[0]].filePath
  }

  /** The first recorded line, or 0 when none is recorded. */
  function FirstLine(lines: seq<int>): int {
    if |lines| > 0 then lines[0] else 0
  }

  /** The conflict of a task that still calls `oldName` after `renameTask` renamed it. */
  function RenameConflict(filePath: string, oldName: string, newName: string, renameTask: string, taskId: string, callLines: seq<int>): SemanticConflict {
    SemanticConflict(
      "function_rename", filePath, "function:" + oldName, [renameTask, taskId],
      RenameDescription(renameTask, oldName, newName, taskId, callLines),
      FirstLine(callLines), High,
      Some(RenameSuggestion(oldName, newName, taskId)),
      RenameInfo(oldName, newName, callLines))
  }

  /** The conflict of a task that uses `symbol` without importing it after `removalTask` removed its import. */
  function ImportConflict(filePath: string, symbol: string, removalTask: string, taskId: string, usageLines: seq<int>): SemanticConflict {
    SemanticConflict(
      "import_removal", filePath, "import:" + symbol, [removalTask, taskId],
      ImportDescription(removalTask, symbol, taskId, usageLines),
      FirstLine(usageLines), Critical,
      Some(ImportSuggestion(taskId, symbol)),
      ImportInfo(symbol, usageLines))
  }

  /** The conflict of a task that added `None` to the return annotation of `funcName`. */
  function TypeChangeConflict(filePath: string, funcName: string, oldType: string, newType: string, changeTask: string): SemanticConflict {
    SemanticConflict(
      "type_change", filePath, "function:" + funcName, [changeTask],
      TypeDescription(changeTask, funcName, oldType, newType),
      0, Medium,
      Some(TypeSuggestion(funcName)),
      TypeInfo(funcName, oldType, newType))
  }

  /** An import-removal conflict names the removed symbol in its description. */
  lemma ImportConflictNamesSymbol(filePath: string, symbol: string, removalTask: string, taskId: string, usageLines: seq<int>)
    ensures Contains(Render(ImportConflict(filePath, symbol, removalTask, taskId, usageLines).description), symbol)
  {
    FormatContainsPiece(Pieces(ImportDescription(removalTask, symbol, taskId, usageLines)), 3);
  }

  /** A rename conflict names the old function name in its description. */
  lemma RenameConflictNamesFunction(filePath: string, oldName: string, newName: string, renameTask: string, taskId: string, callLines: seq<int>)
    ensures Contains(Render(RenameConflict(filePath, oldName, newName, renameTask, taskId, callLines).description), oldName)
  {
    FormatContainsPiece(Pieces(RenameDescription(renameTask, oldName, newName, taskId, callLines)), 3);
  }

  /** A type-change conflict mentions `None` in its description. */
  lemma TypeChangeConflictMentionsNone(filePath: string, funcName: string, oldType: string, newType: string, changeTask: string)
    ensures Contains(Render(TypeChangeConflict(filePath, funcName, oldType, newType, changeTask).description), "None")
  {
    FormatContainsPiece(Pieces(TypeDescription(changeTask, funcName, oldType, newType)), 9);
  }
}
