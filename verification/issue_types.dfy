/**
 The issue-type choice `validate_jira_connection` makes once the project's available type names
 are known. The configured task type is kept when the project offers it, otherwise the first of
 `Task`, `Story`, `Issue` the project offers replaces it, and with none of them the connection is
 refused. The configured subtask type is kept when offered, otherwise the first of `Sub-task`,
 `Subtask` replaces it, and with neither it is kept anyway (the code only warns).
 */
module IssueTypes {
  import opened Wrappers

  const DefaultTaskType := "Task"
  const DefaultSubtaskType := "Subtask"
  const TaskFallbacks: seq<string> := ["Task", "Story", "Issue"]
  const SubtaskFallbacks: seq<string> := ["Sub-task", "Subtask"]

  /** The issue types the stage runs with. */
  datatype Config = Config(taskType: string, subtaskType: string)

  /** Python's `next((t for t in candidates if t in available), None)`. */
  function FirstAvailable(candidates: seq<string>, available: seq<string>): (r: Option<string>)
    ensures r.Some? ==> r.value in candidates && r.value in available
    ensures r.None? <==> forall i :: 0 <= i < |candidates| ==> candidates[i] !in available
    decreases |candidates|
  {
    if candidates == [] then None
    else if candidates[0] in available then Some(candidates[0])
    else FirstAvailable(candidates[1..], available)
  }

  /** The candidate chosen is the earliest one available: every candidate before it is missing. */
  lemma {:induction false} FirstAvailableIsFirst(candidates: seq<string>, available: seq<string>, j: nat)
    requires j < |candidates| && FirstAvailable(candidates, available).Some?
    requires candidates[j] == FirstAvailable(candidates, available).value
    requires forall a, b :: 0 <= a < b < |candidates| ==> candidates[a] != candidates[b]
    ensures forall i :: 0 <= i < j ==> candidates[i] !in available
    decreases |candidates|
  {
    if candidates[0] !in available {
      assert j > 0;
      FirstAvailableIsFirst(candidates[1..], available, j - 1);
      forall i | 0 < i < j
        ensures candidates[i] !in available
      {
        assert candidates[1..][i - 1] == candidates[i];
      }
    } else {
      assert candidates[j] == candidates[0];
    }
  }

  function ResolveTaskType(configured: string, available: seq<string>): (r: Option<string>)
    ensures configured in available ==> r == Some(configured)
    ensures configured !in available ==> r == FirstAvailable(TaskFallbacks, available)
    ensures r.Some? ==> r.value in available
    ensures configured !in available && "Task" in available ==> r == Some("Task")
    ensures configured !in available && "Task" !in available && "Story" in available ==> r == Some("Story")
    ensures configured !in available && "Task" !in available && "Story" !in available && "Issue" in available
      ==> r == Some("Issue")
    ensures configured !in available && "Task" !in available && "Story" !in available && "Issue" !in available
      ==> r.None?
  {
    if configured in available then Some(configured) else FirstAvailable(TaskFallbacks, available)
  }

  function ResolveSubtaskType(configured: string, available: seq<string>): (r: string)
    ensures configured in available ==> r == configured
    ensures r in available || r == configured
    ensures r != configured ==> r in SubtaskFallbacks && r in available
    ensures configured !in available ==> r == FirstAvailable(SubtaskFallbacks, available).GetOr(configured)
    ensures configured !in available && "Sub-task" in available ==> r == "Sub-task"
    ensures configured !in available && "Sub-task" !in available && "Subtask" in available ==> r == "Subtask"
    ensures configured !in available && "Sub-task" !in available && "Subtask" !in available ==> r == configured
  {
    if configured in available then configured
    else FirstAvailable(SubtaskFallbacks, available).GetOr(configured)
  }

  /** The connection check after the project has been found: `None` when no task type can be
      used, otherwise the pair of types the tickets are created with. */
  function Resolve(cfg: Config, available: seq<string>): (r: Option<Config>)
    ensures r.None? <==>
      cfg.taskType !in available && "Task" !in available && "Story" !in available && "Issue" !in available
    ensures r.Some? ==> r.value.taskType in available
    ensures r.Some? ==> r.value.subtaskType in available || r.value.subtaskType == cfg.subtaskType
    ensures r.None? <==> ResolveTaskType(cfg.taskType, available).None?
    ensures r.Some? ==> (r.value ==
      Config(ResolveTaskType(cfg.taskType, available).value, ResolveSubtaskType(cfg.subtaskType, available)))
  {
    match ResolveTaskType(cfg.taskType, available)
    case None => None
    case Some(t) => Some(Config(t, ResolveSubtaskType(cfg.subtaskType, available)))
  }

  /** A project offering `Story` and `Sub-task` but neither `Task` nor `Subtask` moves both
      default types to those names. */
  lemma StoryProject()
    ensures Resolve(Config(DefaultTaskType, DefaultSubtaskType), ["Story", "Sub-task", "Bug"])
      == Some(Config("Story", "Sub-task"))
  {
    var avail := ["Story", "Sub-task", "Bug"];
    assert "Task" !in avail by { assert avail[0] != "Task" && avail[1] != "Task" && avail[2] != "Task"; }
    assert "Subtask" !in avail by {
      assert avail[0] != "Subtask" && avail[1] != "Subtask" && avail[2] != "Subtask";
    }
    assert "Story" == avail[0] && "Sub-task" == avail[1];
  }
}
