/**
 * `detect_semantic_conflicts`: run every detector over the tasks' versions
 * of one file and turn each conflict into the `ConflictRegion` the merge
 * pipeline consumes.
 */
module SemanticRegions {
  import opened Wrappers
  import opened Text
  import opened PyDict
  import opened PythonAst
  import opened SemanticConflicts
  import RenameDetection
  import ImportDetection
  import TypeDetection

  /** The merge strategy the conversion assigns; the other strategies of the merge pipeline are never chosen here. */
  datatype MergeStrategy = HumanRequired

  /** The fields of a `ConflictRegion` that the conversion fills. */
  datatype ConflictRegion = ConflictRegion(
    filePath: string,
    location: string,
    tasksInvolved: seq<string>,
    changeTypes: seq<ChangeType>,
    severity: Severity,
    canAutoMerge: bool,
    mergeStrategy: MergeStrategy,
    reason: string)

  /** `detect_variable_rename_conflicts`: a placeholder that reports no conflict. */
  method DetectVariableRenameConflicts(analyses: Dict<string, FileAnalysis>, contents: Dict<string, FileVersions>)
    returns (conflicts: seq<SemanticConflict>)
    ensures conflicts == []
  {
    conflicts := [];
  }

  /** The change type a conflict kind maps to; kinds outside the table map to `Unknown`. */
  function ChangeTypeOf(conflictType: string): ChangeType {
    if conflictType == "function_rename" then RenameFunction
    else if conflictType == "import_removal" then RemoveImport
    else if conflictType == "variable_rename" then ModifyVariable
    else if conflictType == "type_change" then ModifyFunction
    else Unknown
  }

  /** A list holding `x` `n` times. */
  function Repeat<T>(x: T, n: nat): (r: seq<T>)
    ensures |r| == n && forall i :: 0 <= i < n ==> r[i] == x
  {
    seq(n, _ => x)
  }

  /** `full_reason`: the kind in brackets, the description and, when there is a non-empty one, the suggestion. */
  function ReasonText(kind: string, description: string, suggestion: Option<string>): string {
    var full := "[Semantic: " + kind + "] " + description;
    if suggestion.Some? && suggestion.value != "" then full + " Suggestion: " + suggestion.value else full
  }

  /** The reason of a conflict, its messages rendered. */
  function Reason(c: SemanticConflict): string {
    ReasonText(c.conflictType, Render(c.description), if c.suggestion.Some? then Some(Render(c.suggestion.value)) else None)
  }

  /** The region reported for one conflict. */
  function ToRegion(c: SemanticConflict): ConflictRegion {
    ConflictRegion(
      c.filePath, c.location, c.tasksInvolved, Repeat(ChangeTypeOf(c.conflictType), |c.tasksInvolved|),
      c.severity, false, HumanRequired, Reason(c))
  }

  /** `f` applied to each element of `xs`, in order. */
  function MapSeq<A, B>(f: A -> B, xs: seq<A>): (r: seq<B>)
    ensures |r| == |xs| && forall i :: 0 <= i < |xs| ==> r[i] == f(xs[i])
  {
    seq(|xs|, i requires 0 <= i < |xs| => f(xs[i]))
  }

  /** The regions of a list of conflicts, one each, in order. */
  function Regions(cs: seq<SemanticConflict>): seq<ConflictRegion> {
    MapSeq(ToRegion, cs)
  }

  /** The conflicts of the four detectors, in the order the source runs them. */
  function AllConflicts(analyses: Dict<string, FileAnalysis>, contents: Dict<string, FileVersions>, parse: Parser): seq<SemanticConflict>
    requires analyses.Valid() && contents.Valid()
  {
    Combined(
      RenameDetection.FunctionRenameConflicts(analyses, contents, parse),
      ImportDetection.ImportRemovalConflicts(analyses, contents, parse),
      [],
      TypeDetection.TypeChangeConflicts(analyses, contents, parse))
  }

  /** The detectors' conflicts, in the order they are collected. */
  function Combined<T>(renames: seq<T>, imports: seq<T>, variables: seq<T>, types: seq<T>): (r: seq<T>)
    ensures |r| == |renames| + |imports| + |variables| + |types|
  {
    renames + imports + variables + types
  }

  /** Every collected conflict comes from one of the detectors. */
  lemma InCombined<T>(renames: seq<T>, imports: seq<T>, variables: seq<T>, types: seq<T>, k: nat)
    requires k < |Combined(renames, imports, variables, types)|
    ensures var x := Combined(renames, imports, variables, types)[k];
      x in renames || x in imports || x in variables || x in types
  {
  }

  /** What `detect_semantic_conflicts` returns. */
  function SemanticConflictRegions(analyses: Dict<string, FileAnalysis>, contents: Dict<string, FileVersions>, parse: Parser): seq<ConflictRegion>
    requires analyses.Valid() && contents.Valid()
  {
    if |analyses.keys| == 0 then [] else Regions(AllConflicts(analyses, contents, parse))
  }

  /** The reason opens with the conflict kind in brackets, quotes the description, and ends with the suggestion when there is one. */
  lemma ReasonNamesKindAndDescription(kind: string, description: string, suggestion: Option<string>)
    ensures StartsWith(ReasonText(kind, description, suggestion), "[Semantic: " + kind + "] ")
    ensures Contains(ReasonText(kind, description, suggestion), description)
    ensures suggestion.Some? && suggestion.value != "" ==>
      EndsWith(ReasonText(kind, description, suggestion), " Suggestion: " + suggestion.value)
    ensures suggestion.Some? && suggestion.value != "" ==> Contains(ReasonText(kind, description, suggestion), " Suggestion: ")
  {
    var prefix := "[Semantic: " + kind + "] ";
    var full := prefix + description;
    ContainsInfix(prefix, description, "");
    assert prefix + description + "" == full;
    assert full[..|prefix|] == prefix;
    if suggestion.Some? && suggestion.value != "" {
      var tail := " Suggestion: " + suggestion.value;
      ContainsAppend(full, tail, description);
      ContainsInfix(full, " Suggestion: ", suggestion.value);
      assert full + " Suggestion: " + suggestion.value == full + tail;
      assert (full + tail)[..|prefix|] == prefix;
    }
  }

  /** The conversion keeps the conflict's place, tasks and severity, and hands every region to a human. */
  lemma RegionOfConflict(c: SemanticConflict)
    ensures var r := ToRegion(c);
      && r.filePath == c.filePath && r.location == c.location
      && r.tasksInvolved == c.tasksInvolved && r.severity == c.severity
      && |r.changeTypes| == |r.tasksInvolved|
      && (forall t :: t in r.changeTypes ==> t == ChangeTypeOf(c.conflictType))
      && !r.canAutoMerge && r.mergeStrategy == HumanRequired
  {
  }

  /** Mapping distributes over concatenation, so the regions keep the order of the detectors. */
  lemma MapSnoc<A, B>(f: A -> B, xs: seq<A>, i: nat)
    requires i < |xs|
    ensures MapSeq(f, xs[..i + 1]) == MapSeq(f, xs[..i]) + [f(xs[i])]
  {
    assert xs[..i + 1] == xs[..i] + [xs[i]];
    MapAppend(f, xs[..i], [xs[i]]);
  }

  /** Mapping distributes over concatenation. */
  lemma MapAppend<A, B>(f: A -> B, a: seq<A>, b: seq<A>)
    ensures MapSeq(f, a + b) == MapSeq(f, a) + MapSeq(f, b)
  {
    var r, s := MapSeq(f, a + b), MapSeq(f, a) + MapSeq(f, b);
    forall i | 0 <= i < |r| ensures r[i] == s[i] {
      if i < |a| {
        assert (a + b)[i] == a[i];
      } else {
        assert (a + b)[i] == b[i - |a|];
      }
    }
  }

  /** The regions are those of the rename conflicts, then the import conflicts, then the type conflicts. */
  lemma RegionsInDetectorOrder(analyses: Dict<string, FileAnalysis>, contents: Dict<string, FileVersions>, parse: Parser)
    requires analyses.Valid() && contents.Valid() && |analyses.keys| > 0
    ensures SemanticConflictRegions(analyses, contents, parse)
      == Regions(RenameDetection.FunctionRenameConflicts(analyses, contents, parse))
       + Regions(ImportDetection.ImportRemovalConflicts(analyses, contents, parse))
       + Regions(TypeDetection.TypeChangeConflicts(analyses, contents, parse))
  {
    var renames := RenameDetection.FunctionRenameConflicts(analyses, contents, parse);
    var imports := ImportDetection.ImportRemovalConflicts(analyses, contents, parse);
    var types := TypeDetection.TypeChangeConflicts(analyses, contents, parse);
    assert AllConflicts(analyses, contents, parse) == (renames + imports) + types;
    MapAppend(ToRegion, renames + imports, types);
    MapAppend(ToRegion, renames, imports);
  }

  /** What every detector promises of the conflicts it reports (their shape lemmas), as far as the conversion cares. */
  ghost predicate Reported(c: SemanticConflict, filePath: string) {
    && c.filePath == filePath && |c.tasksInvolved| > 0 && c.suggestion.Some?
    && ((c.conflictType == "function_rename" && c.severity == High && c.suggestion.value.RenameSuggestion?)
        || (c.conflictType == "import_removal" && c.severity == Critical && c.suggestion.value.ImportSuggestion?)
        || (c.conflictType == "type_change" && c.severity == Medium && c.suggestion.value.TypeSuggestion?))
  }

  /**
   * A region `detect_semantic_conflicts` may report: it lies in `filePath`,
   * needs a human, has one change type per task, all of them the known
   * type of the conflict kind with that kind's severity (never `UNKNOWN`),
   * and its reason names the kind and carries a suggestion.
   */
  ghost predicate HumanReviewRegion(r: ConflictRegion, filePath: string) {
    && r.filePath == filePath
    && !r.canAutoMerge && r.mergeStrategy == HumanRequired
    && 0 < |r.tasksInvolved| == |r.changeTypes|
    && (forall t :: t in r.changeTypes ==> t != Unknown)
    && (forall t :: t in r.changeTypes ==>
          || (t == RenameFunction && r.severity == High)
          || (t == RemoveImport && r.severity == Critical)
          || (t == ModifyFunction && r.severity == Medium))
    && StartsWith(r.reason, "[Semantic: ")
    && Contains(r.reason, " Suggestion: ")
  }

  /** The region of a reported conflict is one for human review. */
  lemma ReportedRegion(c: SemanticConflict, filePath: string)
    requires Reported(c, filePath)
    ensures HumanReviewRegion(ToRegion(c), filePath)
  {
    SuggestionsHaveText(c.suggestion.value);
    var kind, description, suggestion := c.conflictType, Render(c.description), Render(c.suggestion.value);
    ReasonNamesKindAndDescription(kind, description, Some(suggestion));
    var text := ReasonText(kind, description, Some(suggestion));
    assert text[..|"[Semantic: "|] == ("[Semantic: " + kind + "] ")[..|"[Semantic: "|];
  }

  /** Each rename conflict passes the report filter. */
  lemma RenamesReported(analyses: Dict<string, FileAnalysis>, contents: Dict<string, FileVersions>, parse: Parser, c: SemanticConflict)
    requires analyses.Valid() && contents.Valid()
    requires c in RenameDetection.FunctionRenameConflicts(analyses, contents, parse)
    ensures |analyses.keys| > 0 && Reported(c, FilePathOf(analyses))
  {
    RenameDetection.RenameConflictShape(analyses, contents, parse, c);
  }

  /** Each import-removal conflict passes the report filter. */
  lemma ImportsReported(analyses: Dict<string, FileAnalysis>, contents: Dict<string, FileVersions>, parse: Parser, c: SemanticConflict)
    requires analyses.Valid() && contents.Valid()
    requires c in ImportDetection.ImportRemovalConflicts(analyses, contents, parse)
    ensures |analyses.keys| > 0 && Reported(c, FilePathOf(analyses))
  {
    ImportDetection.ImportConflictShape(analyses, contents, parse, c);
  }

  /** Each type-change conflict passes the report filter. */
  lemma TypesReported(analyses: Dict<string, FileAnalysis>, contents: Dict<string, FileVersions>, parse: Parser, c: SemanticConflict)
    requires analyses.Valid() && contents.Valid()
    requires c in TypeDetection.TypeChangeConflicts(analyses, contents, parse)
    ensures |analyses.keys| > 0 && Reported(c, FilePathOf(analyses))
  {
    TypeDetection.TypeChangeConflictShape(analyses, contents, parse, c);
  }

  /** Every conflict the detectors report has the shape the conversion relies on. */
  lemma DetectorsReport(analyses: Dict<string, FileAnalysis>, contents: Dict<string, FileVersions>, parse: Parser, k: nat)
    requires analyses.Valid() && contents.Valid()
    requires k < |AllConflicts(analyses, contents, parse)|
    ensures |analyses.keys| > 0 && Reported(AllConflicts(analyses, contents, parse)[k], FilePathOf(analyses))
  {
    var renames := RenameDetection.FunctionRenameConflicts(analyses, contents, parse);
    var imports := ImportDetection.ImportRemovalConflicts(analyses, contents, parse);
    var types := TypeDetection.TypeChangeConflicts(analyses, contents, parse);
    var c := AllConflicts(analyses, contents, parse)[k];
    InCombined(renames, imports, [], types, k);
    if c in renames {
      RenamesReported(analyses, contents, parse, c);
    } else if c in imports {
      ImportsReported(analyses, contents, parse, c);
    } else {
      TypesReported(analyses, contents, parse, c);
    }
  }

  /** Every region `detect_semantic_conflicts` reports is one for human review of the analysed file. */
  lemma SemanticRegionShape(analyses: Dict<string, FileAnalysis>, contents: Dict<string, FileVersions>, parse: Parser, k: nat)
    requires analyses.Valid() && contents.Valid()
    requires k < |SemanticConflictRegions(analyses, contents, parse)|
    ensures |analyses.keys| > 0 && HumanReviewRegion(SemanticConflictRegions(analyses, contents, parse)[k], FilePathOf(analyses))
  {
    var all := AllConflicts(analyses, contents, parse);
    DetectorsReport(analyses, contents, parse, k);
    ReportedRegion(all[k], FilePathOf(analyses));
  }

  /** The body of the conversion loop: the region of one conflict. */
  method RegionFor(conflict: SemanticConflict) returns (region: ConflictRegion)
    ensures region == ToRegion(conflict)
  {
    var changeType := ChangeTypeOf(conflict.conflictType);
    var description := Render(conflict.description);
    var reason := "[Semantic: " + conflict.conflictType + "] " + description;
    if conflict.suggestion.Some? {
      var suggestion := Render(conflict.suggestion.value);
      if suggestion != "" {
        reason := reason + " Suggestion: " + suggestion;
      }
    }
    region := ConflictRegion(
      conflict.filePath, conflict.location, conflict.tasksInvolved,
      Repeat(changeType, |conflict.tasksInvolved|), conflict.severity, false, HumanRequired, reason);
  }

  /** The conversion loop of `detect_semantic_conflicts`: one region per conflict, in order. */
  method ConvertConflicts(all: seq<SemanticConflict>) returns (regions: seq<ConflictRegion>)
    ensures regions == Regions(all)
  {
    regions := [];
    var i := 0;
    while i < |all|
      invariant 0 <= i <= |all|
      invariant regions == Regions(all[..i])
    {
      var region := RegionFor(all[i]);
      MapSnoc(ToRegion, all, i);
      regions := regions + [region];
      i := i + 1;
    }
    assert all[..i] == all;
  }

  /** The first half of `detect_semantic_conflicts`: every detector's conflicts, in turn. */
  method CollectConflicts(analyses: Dict<string, FileAnalysis>, contents: Dict<string, FileVersions>, parse: Parser)
    returns (all: seq<SemanticConflict>)
    requires analyses.Valid() && contents.Valid()
    ensures all == AllConflicts(analyses, contents, parse)
  {
    var renames := RenameDetection.DetectFunctionRenameConflicts(analyses, contents, parse);
    var imports := ImportDetection.DetectImportRemovalConflicts(analyses, contents, parse);
    var variables := DetectVariableRenameConflicts(analyses, contents);
    var types := TypeDetection.DetectTypeChangeConflicts(analyses, contents, parse);
    all := Extend(renames, imports, variables, types);
  }

  /** The conflicts of each detector appended in turn to a list that starts empty. */
  method Extend<T>(renames: seq<T>, imports: seq<T>, variables: seq<T>, types: seq<T>) returns (all: seq<T>)
    ensures all == Combined(renames, imports, variables, types)
  {
    all := [];
    all := all + renames;
    all := all + imports;
    all := all + variables;
    all := all + types;
    assert all == renames + imports + variables + types;
  }

  /** `detect_semantic_conflicts`, with the parser passed in. */
  method DetectSemanticConflicts(analyses: Dict<string, FileAnalysis>, contents: Dict<string, FileVersions>, parse: Parser)
    returns (regions: seq<ConflictRegion>)
    requires analyses.Valid() && contents.Valid()
    ensures regions == SemanticConflictRegions(analyses, contents, parse)
  {
    if |analyses.keys| == 0 {
      return [];
    }
    var all := CollectConflicts(analyses, contents, parse);
    regions := ConvertConflicts(all);
  }
}
