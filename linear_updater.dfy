/**
 * The Linear updater's bookkeeping: the task state kept in the spec
 * directory's `.linear_task.json`, the parsing of the agent's answer when a
 * task is created, the status-update decision, the escaping of comments
 * and the comments posted at each build transition.
 *
 * Whether Linear is enabled (the API key is set) and the availability the
 * connection cache reports are parameters; each agent call is the response
 * it produced, `None` when the call failed after its retries.
 */
module LinearUpdater {
  import opened Wrappers
  import opened Text
  import LinearErrors

  const StatusTodo: string := "Todo"
  const StatusInProgress: string := "In Progress"
  const StatusInReview: string := "In Review"
  const StatusDone: string := "Done"
  const StatusCanceled: string := "Canceled"

  /** A JSON object whose values are strings or `null`. */
  type Json = map<string, Option<string>>

  /** The keys `to_dict` writes. */
  const StateKeys: set<string> := {"task_id", "task_title", "team_id", "status", "created_at"}

  /** The value under `key`, or `default` when the key is absent. */
  function Get(d: Json, key: string, default: Option<string>): Option<string> {
    if key in d then d[key] else default
  }

  /** `LinearTaskState`; `status` is `None` only when a stored file holds `null` there. */
  datatype LinearTaskState = LinearTaskState(
    taskId: Option<string>,
    taskTitle: Option<string>,
    teamId: Option<string>,
    status: Option<string>,
    createdAt: Option<string>)
  {
    /** `to_dict`: exactly the five fields under their snake-case names. */
    function ToDict(): (d: Json)
      ensures d.Keys == StateKeys
      ensures d["task_id"] == taskId && d["task_title"] == taskTitle && d["team_id"] == teamId
      ensures d["status"] == status && d["created_at"] == createdAt
    {
      map["task_id" := taskId, "task_title" := taskTitle, "team_id" := teamId, "status" := status, "created_at" := createdAt]
    }
  }

  /** `from_dict`: absent fields are `None`, except the status, which defaults to `"Todo"`; other keys are ignored. */
  function FromDict(d: Json): (s: LinearTaskState)
    ensures "status" !in d ==> s.status == Some(StatusTodo)
    ensures "task_id" !in d ==> s.taskId.None?
    ensures "task_title" !in d ==> s.taskTitle.None?
    ensures "team_id" !in d ==> s.teamId.None?
    ensures "created_at" !in d ==> s.createdAt.None?
  {
    LinearTaskState(
      Get(d, "task_id", None),
      Get(d, "task_title", None),
      Get(d, "team_id", None),
      Get(d, "status", Some(StatusTodo)),
      Get(d, "created_at", None))
  }

  /** Reading back what `to_dict` wrote gives the same state. */
  lemma FromDictToDict(s: LinearTaskState)
    ensures FromDict(s.ToDict()) == s
  {
  }

  /** A dictionary with exactly the state's keys is what `to_dict` writes for the state read from it. */
  lemma ToDictFromDict(d: Json)
    requires d.Keys == StateKeys
    ensures FromDict(d).ToDict() == d
  {
    var r := FromDict(d).ToDict();
    assert r.Keys == d.Keys;
    forall k | k in d
      ensures r[k] == d[k]
    {
    }
  }

  /** A spec directory, as far as its `.linear_task.json` goes. */
  class SpecDir {
    /** The decoded contents of `.linear_task.json`; `None` when it is missing or cannot be read. */
    var linearTaskFile: Option<Json>

    constructor(linearTaskFile: Option<Json>)
      ensures this.linearTaskFile == linearTaskFile
    {
      this.linearTaskFile := linearTaskFile;
    }

    /**
     * `LinearTaskState.load`: a state exactly when the file is there; a file
     * `to_dict` could have written is read back to that dictionary, and a
     * missing status reads as `"Todo"`.
     */
    function Load(): (r: Option<LinearTaskState>)
      reads this
      ensures r.Some? <==> linearTaskFile.Some?
      ensures r.Some? && linearTaskFile.value.Keys == StateKeys ==> r.value.ToDict() == linearTaskFile.value
      ensures r.Some? && "status" !in linearTaskFile.value ==> r.value.status == Some(StatusTodo)
    {
      if linearTaskFile.None? then None
      else if linearTaskFile.value.Keys == StateKeys then
        ToDictFromDict(linearTaskFile.value);
        Some(FromDict(linearTaskFile.value))
      else Some(FromDict(linearTaskFile.value))
    }

    /** `LinearTaskState.save`: the file now holds the state's dictionary, and loading it gives the state back. */
    method Save(state: LinearTaskState)
      modifies this
      ensures linearTaskFile == Some(state.ToDict())
      ensures Load() == Some(state)
    {
      linearTaskFile := Some(state.ToDict());
      FromDictToDict(state);
    }
  }

  /** A stored state exists and carries a non-empty task id. */
  predicate HasTaskId(state: Option<LinearTaskState>) {
    state.Some? && Truthy(state.value.taskId)
  }

  // ---------------------------------------------------------------------
  // Parsing the agent's answer to a creation request
  // ---------------------------------------------------------------------

  /** A line (stripped) that starts with `TASK_ID:`. */
  predicate TaskLine(line: string) {
    StartsWith(Strip(line), "TASK_ID:")
  }

  /** A line (stripped) that starts with `TEAM_ID:` and is not a task line. */
  predicate TeamLine(line: string) {
    !TaskLine(line) && StartsWith(Strip(line), "TEAM_ID:")
  }

  /** The stripped line with every occurrence of `tag` removed, stripped again. */
  function TagValue(line: string, tag: string): string
    requires tag != ""
  {
    Strip(ReplaceAll(Strip(line), tag, ""))
  }

  function TaskValue(line: string): string {
    TagValue(line, "TASK_ID:")
  }

  function TeamValue(line: string): string {
    TagValue(line, "TEAM_ID:")
  }

  /** The value of the last of the first `n` lines that `matches`, if any. */
  function LastMatch(lines: seq<string>, n: nat, matches: string -> bool, value: string -> string): Option<string>
    requires n <= |lines|
  {
    if n == 0 then None
    else if matches(lines[n - 1]) then Some(value(lines[n - 1]))
    else LastMatch(lines, n - 1, matches, value)
  }

  /** Nothing is found exactly when no line matches; otherwise the value comes from a matching line that no later line overrides. */
  lemma {:induction false} LastMatchIsLast(lines: seq<string>, n: nat, matches: string -> bool, value: string -> string)
    requires n <= |lines|
    ensures LastMatch(lines, n, matches, value).None? <==> forall j :: 0 <= j < n ==> !matches(lines[j])
    ensures LastMatch(lines, n, matches, value).Some? ==>
      exists j :: 0 <= j < n && matches(lines[j]) && LastMatch(lines, n, matches, value) == Some(value(lines[j]))
        && forall k :: j < k < n ==> !matches(lines[k])
  {
    if n > 0 && !matches(lines[n - 1]) {
      LastMatchIsLast(lines, n - 1, matches, value);
    } else if n > 0 {
      assert matches(lines[n - 1]);
    }
  }

  /** The task id the answer names: the value of its last `TASK_ID:` line. */
  function TaskIdOf(response: string): Option<string> {
    var lines := Split(response, '\n');
    LastMatch(lines, |lines|, TaskLine, TaskValue)
  }

  /** With `lines` the lines of the answer: no task id exactly when no line is a task line; otherwise the value of the last one. */
  lemma {:induction false} TaskIdOfIsLast(response: string, lines: seq<string>)
    requires lines == Split(response, '\n')
    ensures
      && (TaskIdOf(response).None? <==> forall j :: 0 <= j < |lines| ==> !TaskLine(lines[j]))
      && (TaskIdOf(response).Some? ==> exists j :: (0 <= j < |lines| && TaskLine(lines[j])
            && TaskIdOf(response) == Some(TaskValue(lines[j]))
            && forall k :: j < k < |lines| ==> !TaskLine(lines[k])))
  {
    assert TaskIdOf(response) == LastMatch(lines, |lines|, TaskLine, TaskValue);
    LastTaskLine(lines);
  }

  /** `LastMatchIsLast` for task lines. */
  lemma {:induction false} LastTaskLine(lines: seq<string>)
    ensures var r := LastMatch(lines, |lines|, TaskLine, TaskValue);
      && (r.None? <==> forall j :: 0 <= j < |lines| ==> !TaskLine(lines[j]))
      && (r.Some? ==> exists j :: (0 <= j < |lines| && TaskLine(lines[j]) && r == Some(TaskValue(lines[j]))
            && forall k :: j < k < |lines| ==> !TaskLine(lines[k])))
  {
    LastMatchIsLast(lines, |lines|, TaskLine, TaskValue);
  }

  /** The team id the answer names: the value of its last `TEAM_ID:` line that is not a task line. */
  function TeamIdOf(response: string): Option<string> {
    var lines := Split(response, '\n');
    LastMatch(lines, |lines|, TeamLine, TeamValue)
  }

  /** With `lines` the lines of the answer: no team id exactly when no line is a team line; otherwise the value of the last one. */
  lemma {:induction false} TeamIdOfIsLast(response: string, lines: seq<string>)
    requires lines == Split(response, '\n')
    ensures
      && (TeamIdOf(response).None? <==> forall j :: 0 <= j < |lines| ==> !TeamLine(lines[j]))
      && (TeamIdOf(response).Some? ==> exists j :: (0 <= j < |lines| && TeamLine(lines[j])
            && TeamIdOf(response) == Some(TeamValue(lines[j]))
            && forall k :: j < k < |lines| ==> !TeamLine(lines[k])))
  {
    assert TeamIdOf(response) == LastMatch(lines, |lines|, TeamLine, TeamValue);
    LastTeamLine(lines);
  }

  /** `LastMatchIsLast` for team lines. */
  lemma {:induction false} LastTeamLine(lines: seq<string>)
    ensures var r := LastMatch(lines, |lines|, TeamLine, TeamValue);
      && (r.None? <==> forall j :: 0 <= j < |lines| ==> !TeamLine(lines[j]))
      && (r.Some? ==> exists j :: (0 <= j < |lines| && TeamLine(lines[j]) && r == Some(TeamValue(lines[j]))
            && forall k :: j < k < |lines| ==> !TeamLine(lines[k])))
  {
    LastMatchIsLast(lines, |lines|, TeamLine, TeamValue);
  }

  /** The parse loop of `create_linear_task`: one pass over the lines, the `if`/`elif` on each. */
  method ParseResponse(response: string) returns (taskId: Option<string>, teamId: Option<string>)
    ensures taskId == TaskIdOf(response) && teamId == TeamIdOf(response)
  {
    var lines := Split(response, '\n');
    taskId := None;
    teamId := None;
    for i := 0 to |lines|
      invariant taskId == LastMatch(lines, i, TaskLine, TaskValue)
      invariant teamId == LastMatch(lines, i, TeamLine, TeamValue)
    {
      var line := Strip(lines[i]);
      if StartsWith(line, "TASK_ID:") {
        taskId := Some(Strip(ReplaceAll(line, "TASK_ID:", "")));
      } else if StartsWith(line, "TEAM_ID:") {
        teamId := Some(Strip(ReplaceAll(line, "TEAM_ID:", "")));
      }
    }
  }

  /** The parsed ids are stripped: they neither start nor end with whitespace. */
  lemma ParsedIdsAreStripped(response: string)
    ensures TaskIdOf(response).Some? && TaskIdOf(response).value != [] ==>
      !IsSpace(TaskIdOf(response).value[0]) && !IsSpace(TaskIdOf(response).value[|TaskIdOf(response).value| - 1])
    ensures TeamIdOf(response).Some? && TeamIdOf(response).value != [] ==>
      !IsSpace(TeamIdOf(response).value[0]) && !IsSpace(TeamIdOf(response).value[|TeamIdOf(response).value| - 1])
  {
    var lines := Split(response, '\n');
    LastMatchIsLast(lines, |lines|, TaskLine, TaskValue);
    LastMatchIsLast(lines, |lines|, TeamLine, TeamValue);
  }

  // ---------------------------------------------------------------------
  // create_linear_task / update_linear_status / add_linear_comment
  // ---------------------------------------------------------------------

  /** The state recorded for a newly created task. */
  function NewTask(taskId: string, title: string, teamId: Option<string>, createdAt: string): LinearTaskState {
    LinearTaskState(Some(taskId), Some(title), teamId, Some(StatusTodo), Some(createdAt))
  }

  /**
   * `create_linear_task`, with `availability` the connection cache's status,
   * `response` the agent's answer and `now` the creation timestamp.
   * `called` tells whether the agent was asked to create the task.
   */
  method CreateLinearTask(dir: SpecDir, enabled: bool, availability: LinearErrors.Availability, title: string,
                          response: Option<string>, now: string)
    returns (result: Option<LinearTaskState>, called: bool)
    modifies dir
    ensures !enabled || availability == LinearErrors.Unavailable ==>
      result.None? && !called && unchanged(dir)
    ensures enabled && availability != LinearErrors.Unavailable && HasTaskId(old(dir.Load())) ==>
      result == old(dir.Load()) && !called && unchanged(dir)
    ensures enabled && availability != LinearErrors.Unavailable && !HasTaskId(old(dir.Load())) ==> called
    ensures called && Truthy(response) && Truthy(TaskIdOf(response.value)) ==>
      result == Some(NewTask(TaskIdOf(response.value).value, title, TeamIdOf(response.value), now))
      && dir.Load() == result
    ensures called && !(Truthy(response) && Truthy(TaskIdOf(response.value))) ==>
      result.None? && unchanged(dir)
  {
    if !enabled {
      return None, false;
    }
    if availability == LinearErrors.Unavailable {
      return None, false;
    }
    var existing := dir.Load();
    if HasTaskId(existing) {
      return existing, false;
    }
    called := true;
    if !Truthy(response) {
      return None, true;
    }
    var taskId, teamId := ParseResponse(response.value);
    if !Truthy(taskId) {
      return None, true;
    }
    var state := NewTask(taskId.value, title, teamId, now);
    dir.Save(state);
    return Some(state), true;
  }

  /**
   * `update_linear_status`: nothing to do without Linear or a stored task;
   * success without a call when the task already has the status; otherwise
   * one agent call, and the status is changed and saved only when it
   * answers.
   */
  method UpdateLinearStatus(dir: SpecDir, enabled: bool, newStatus: string, response: Option<string>)
    returns (ok: bool, called: bool)
    modifies dir
    ensures !enabled || !HasTaskId(old(dir.Load())) ==> !ok && !called && unchanged(dir)
    ensures enabled && HasTaskId(old(dir.Load())) && old(dir.Load()).value.status == Some(newStatus) ==>
      ok && !called && unchanged(dir)
    ensures enabled && HasTaskId(old(dir.Load())) && old(dir.Load()).value.status != Some(newStatus) ==>
      called && ok == Truthy(response)
    ensures called && ok ==> dir.Load() == Some(old(dir.Load()).value.(status := Some(newStatus)))
    ensures called && !ok ==> unchanged(dir)
  {
    if !enabled {
      return false, false;
    }
    var state := dir.Load();
    if !HasTaskId(state) {
      return false, false;
    }
    if state.value.status == Some(newStatus) {
      return true, false;
    }
    if Truthy(response) {
      var updated := state.value.(status := Some(newStatus));
      dir.Save(updated);
      return true, true;
    }
    return false, true;
  }

  /** One character of a comment as it appears inside the quoted comment body. */
  function EscapeChar(c: char): string {
    if c == '"' then "\\\"" else if c == '\n' then "\\n" else [c]
  }

  /** A comment escaped character by character. */
  function EscapeEach(s: string): string
    decreases |s|
  {
    if s == [] then "" else EscapeChar(s[0]) + EscapeEach(s[1..])
  }

  /**
   * The comment as embedded in the prompt: each quote gets a backslash
   * before it, then each newline becomes backslash-n. The two replacements
   * amount to escaping each character on its own, and the result holds no
   * newline, so the comment body stays on one line.
   */
  function EscapeComment(comment: string): (r: string)
    ensures r == EscapeEach(comment)
    ensures '\n' !in r
  {
    ReplacesArePerCharacter(comment);
    EscapeEachNoNewline(comment);
    ReplaceChar(ReplaceChar(comment, '"', "\\\""), '\n', "\\n")
  }

  lemma {:induction false} ReplaceCharAppend(a: string, b: string, c: char, replacement: string)
    ensures ReplaceChar(a + b, c, replacement) == ReplaceChar(a, c, replacement) + ReplaceChar(b, c, replacement)
    decreases |a|
  {
    if a != [] {
      ReplaceCharAppend(a[1..], b, c, replacement);
      assert (a + b)[1..] == a[1..] + b;
    } else {
      assert a + b == b;
    }
  }

  /** The two replacements escape each quote and each newline and leave every other character alone. */
  lemma {:induction false} ReplacesArePerCharacter(s: string)
    ensures ReplaceChar(ReplaceChar(s, '"', "\\\""), '\n', "\\n") == EscapeEach(s)
    decreases |s|
  {
    if s != [] {
      ReplacesArePerCharacter(s[1..]);
      var head := if s[0] == '"' then "\\\"" else [s[0]];
      var rest := ReplaceChar(s[1..], '"', "\\\"");
      assert ReplaceChar(s, '"', "\\\"") == head + rest;
      ReplaceCharAppend(head, rest, '\n', "\\n");
      assert ReplaceChar(head, '\n', "\\n") == EscapeChar(s[0]) by {
        if s[0] == '"' {
          assert head[1..][1..] == [];
        } else {
          assert head[1..] == [];
        }
      }
    }
  }

  lemma {:induction false} EscapeEachNoNewline(s: string)
    ensures '\n' !in EscapeEach(s)
    decreases |s|
  {
    if s != [] {
      EscapeEachNoNewline(s[1..]);
    }
  }

  /** Undo the escaping: `\"` back to a quote and `\n` back to a newline. */
  function Unescape(t: string): string
    decreases |t|
  {
    if t == [] then ""
    else if |t| >= 2 && t[0] == '\\' && t[1] == '"' then "\"" + Unescape(t[2..])
    else if |t| >= 2 && t[0] == '\\' && t[1] == 'n' then "\n" + Unescape(t[2..])
    else [t[0]] + Unescape(t[1..])
  }

  /** A comment without backslashes is recovered from its escaped form. */
  lemma {:induction false} UnescapeEscape(s: string)
    requires '\\' !in s
    ensures Unescape(EscapeComment(s)) == s
  {
    UnescapeEscapeEach(s);
  }

  lemma {:induction false} UnescapeEscapeEach(s: string)
    requires '\\' !in s
    ensures Unescape(EscapeEach(s)) == s
    decreases |s|
  {
    if s != [] {
      assert s[0] in s;
      assert forall c :: c in s[1..] ==> c in s;
      UnescapeEscapeEach(s[1..]);
      var t := EscapeEach(s);
      assert t == EscapeChar(s[0]) + EscapeEach(s[1..]);
      if s[0] == '"' || s[0] == '\n' {
        assert t[2..] == EscapeEach(s[1..]);
      } else {
        assert t[1..] == EscapeEach(s[1..]);
      }
    }
  }

  /** Backslashes are not escaped, so a literal backslash-n and a newline look alike in the comment body. */
  lemma BackslashNAmbiguous()
    ensures EscapeComment("\\n") == EscapeComment("\n") == "\\n"
  {
    assert "\\n"[1..] == "n";
  }

  /**
   * `add_linear_comment`: nothing to do without Linear or a stored task;
   * otherwise the escaped comment is sent as the body and the result is
   * whether the agent answered.
   */
  method AddLinearComment(dir: SpecDir, enabled: bool, comment: string, response: Option<string>)
    returns (ok: bool, body: Option<string>)
    ensures !enabled || !HasTaskId(dir.Load()) ==> !ok && body.None?
    ensures enabled && HasTaskId(dir.Load()) ==> body == Some(EscapeComment(comment)) && ok == Truthy(response)
  {
    if !enabled {
      return false, None;
    }
    var state := dir.Load();
    if !HasTaskId(state) {
      return false, None;
    }
    var safeComment := EscapeComment(comment);
    if Truthy(response) {
      return true, Some(safeComment);
    }
    return false, Some(safeComment);
  }

  // ---------------------------------------------------------------------
  // The transition helpers
  // ---------------------------------------------------------------------

  const StartedComment: string := "Build started - planning phase initiated"
  const BuildCompleteComment: string := "All subtasks completed - moving to QA validation"
  const QaStartedComment: string := "QA validation started"
  const QaApprovedComment: string := "QA approved - awaiting human review for merge"

  /** `linear_subtask_completed`'s comment: it names the subtask and both counts. */
  function SubtaskCompletedComment(subtaskId: string, completed: int, total: int): (r: string)
    ensures Contains(r, subtaskId)
    ensures Contains(r, IntToString(completed)) && Contains(r, IntToString(total))
  {
    var done := IntToString(completed);
    var all := IntToString(total);
    var r := "Completed " + subtaskId + " (" + done + "/" + all + " subtasks done)";
    Names(r, "Completed ", subtaskId, " (" + done + "/" + all + " subtasks done)");
    Names(r, "Completed " + subtaskId + " (", done, "/" + all + " subtasks done)");
    Names(r, "Completed " + subtaskId + " (" + done + "/", all, " subtasks done)");
    r
  }

  /** The part of `linear_subtask_failed`'s comment before the error summary. */
  function SubtaskFailedPrefix(subtaskId: string, attempt: int): string {
    "Subtask " + subtaskId + " failed (attempt " + IntToString(attempt) + "): "
  }

  /** `linear_subtask_failed`'s comment: it names the subtask and the attempt; the error summary is cut to 200 characters. */
  function SubtaskFailedComment(subtaskId: string, attempt: int, errorSummary: string): (r: string)
    ensures Contains(r, subtaskId) && Contains(r, IntToString(attempt))
  {
    var n := IntToString(attempt);
    var tail := Take(errorSummary, 200);
    var r := SubtaskFailedPrefix(subtaskId, attempt) + tail;
    Names(r, "Subtask ", subtaskId, " failed (attempt " + n + "): " + tail);
    Names(r, "Subtask " + subtaskId + " failed (attempt ", n, "): " + tail);
    r
  }

  /** `linear_qa_rejected`'s comment: it names the iteration and the number of issues. */
  function QaRejectedComment(issuesCount: int, iteration: int): (r: string)
    ensures Contains(r, IntToString(iteration)) && Contains(r, IntToString(issuesCount))
  {
    var it := IntToString(iteration);
    var issues := IntToString(issuesCount);
    var r := "QA iteration " + it + ": Found " + issues + " issues - applying fixes";
    Names(r, "QA iteration ", it, ": Found " + issues + " issues - applying fixes");
    Names(r, "QA iteration " + it + ": Found ", issues, " issues - applying fixes");
    r
  }

  /** `linear_qa_max_iterations`'s comment: it names the number of iterations. */
  function QaMaxIterationsComment(iterations: int): (r: string)
    ensures Contains(r, IntToString(iterations))
  {
    var n := IntToString(iterations);
    var r := "QA reached max iterations (" + n + ") - needs human intervention";
    Names(r, "QA reached max iterations (", n, ") - needs human intervention");
    r
  }

  /** `linear_task_stuck`'s comment: it names the subtask and the number of attempts. */
  function TaskStuckComment(subtaskId: string, attemptCount: int): (r: string)
    ensures Contains(r, subtaskId) && Contains(r, IntToString(attemptCount))
  {
    var n := IntToString(attemptCount);
    var r := "Subtask " + subtaskId + " is STUCK after " + n + " attempts - needs human review";
    Names(r, "Subtask ", subtaskId, " is STUCK after " + n + " attempts - needs human review");
    Names(r, "Subtask " + subtaskId + " is STUCK after ", n, " attempts - needs human review");
    r
  }

  /** A text built around `sub` contains it. */
  lemma Names(r: string, before: string, sub: string, after: string)
    requires r == before + sub + after
    ensures Contains(r, sub)
  {
    ContainsInfix(before, sub, after);
  }

  /**
   * A failure comment carries at most 200 characters of the summary, and
   * they are its beginning; a summary that short is carried whole.
   */
  lemma FailedCommentCarriesSummaryPrefix(subtaskId: string, attempt: int, errorSummary: string)
    ensures var c := SubtaskFailedComment(subtaskId, attempt, errorSummary);
      var prefix := SubtaskFailedPrefix(subtaskId, attempt);
      && StartsWith(c, prefix)
      && |c| <= |prefix| + 200
      && StartsWith(errorSummary, c[|prefix|..])
      && (|errorSummary| <= 200 ==> EndsWith(c, errorSummary))
  {
    var c := SubtaskFailedComment(subtaskId, attempt, errorSummary);
    var prefix := SubtaskFailedPrefix(subtaskId, attempt);
    assert c[..|prefix|] == prefix;
    assert c[|prefix|..] == Take(errorSummary, 200);
  }

  /**
   * `linear_task_started` and `linear_qa_started`: move the task to
   * `newStatus` and, only if that succeeded, post `comment`; the result is
   * that of the status update.
   */
  method MoveAndComment(dir: SpecDir, enabled: bool, newStatus: string, comment: string,
                        statusResponse: Option<string>, commentResponse: Option<string>)
    returns (ok: bool, body: Option<string>)
    modifies dir
    ensures !enabled || !HasTaskId(old(dir.Load())) ==> !ok && body.None? && unchanged(dir)
    ensures enabled && HasTaskId(old(dir.Load())) ==>
      && ok == (old(dir.Load()).value.status == Some(newStatus) || Truthy(statusResponse))
      && (ok ==> body == Some(EscapeComment(comment)))
      && (!ok ==> body.None? && unchanged(dir))
    ensures ok ==> dir.Load() == Some(old(dir.Load()).value.(status := Some(newStatus)))
  {
    var called;
    ok, called := UpdateLinearStatus(dir, enabled, newStatus, statusResponse);
    body := None;
    if ok {
      var _, sent := AddLinearComment(dir, enabled, comment, commentResponse);
      body := sent;
    }
  }

  /** `linear_task_started`: In Progress, then the build-started comment. */
  method LinearTaskStarted(dir: SpecDir, enabled: bool, statusResponse: Option<string>, commentResponse: Option<string>)
    returns (ok: bool, body: Option<string>)
    modifies dir
    ensures !enabled || !HasTaskId(old(dir.Load())) ==> !ok && body.None? && unchanged(dir)
    ensures enabled && HasTaskId(old(dir.Load())) ==>
      && ok == (old(dir.Load()).value.status == Some(StatusInProgress) || Truthy(statusResponse))
      && (!ok ==> body.None? && unchanged(dir))
    ensures ok ==> dir.Load() == Some(old(dir.Load()).value.(status := Some(StatusInProgress)))
    ensures ok ==> body == Some(EscapeComment(StartedComment))
  {
    ok, body := MoveAndComment(dir, enabled, StatusInProgress, StartedComment, statusResponse, commentResponse);
  }

  /** `linear_qa_started`: In Review, then the QA-started comment. */
  method LinearQaStarted(dir: SpecDir, enabled: bool, statusResponse: Option<string>, commentResponse: Option<string>)
    returns (ok: bool, body: Option<string>)
    modifies dir
    ensures !enabled || !HasTaskId(old(dir.Load())) ==> !ok && body.None? && unchanged(dir)
    ensures enabled && HasTaskId(old(dir.Load())) ==>
      && ok == (old(dir.Load()).value.status == Some(StatusInReview) || Truthy(statusResponse))
      && (!ok ==> body.None? && unchanged(dir))
    ensures ok ==> dir.Load() == Some(old(dir.Load()).value.(status := Some(StatusInReview)))
    ensures ok ==> body == Some(EscapeComment(QaStartedComment))
  {
    ok, body := MoveAndComment(dir, enabled, StatusInReview, QaStartedComment, statusResponse, commentResponse);
  }
}
