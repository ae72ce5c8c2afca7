/**
 * The persisted entities: a workflow owns tasks, a task owns at most one result.
 * Identifiers (uuids in the database) are natural numbers handed out by the store.
 */
module Entities {
  import opened Wrappers
  import opened Json

  type TaskId = nat
  type WorkflowId = nat

  /** The task state machine: Queued, then InProgress, then Completed or Failed. */
  datatype TaskStatus = Queued | InProgress | Completed | Failed

  datatype WorkflowStatus = Initial | InProgress | Completed | Failed

  /** The enum string values, as they appear in serialised results. */
  function TaskStatusText(s: TaskStatus): string {
    match s
    case Queued => "queued"
    case InProgress => "in_progress"
    case Completed => "completed"
    case Failed => "failed"
  }

  function WorkflowStatusText(s: WorkflowStatus): string {
    match s
    case Initial => "initial"
    case InProgress => "in_progress"
    case Completed => "completed"
    case Failed => "failed"
  }

  /** The `Result` row a task points at; `data` is a serialised output or a raw error message. */
  datatype TaskResult = TaskResult(data: string)

  datatype Task = Task(
    taskId: TaskId,
    workflowId: WorkflowId,
    clientId: string,
    geoJson: string,
    status: TaskStatus,
    progress: Option<string>,
    result: Option<TaskResult>,
    taskType: string,
    stepNumber: int,
    dependsOn: Option<string>)

  datatype Workflow = Workflow(
    workflowId: WorkflowId,
    clientId: string,
    status: WorkflowStatus,
    finalResult: Option<string>)

  /** One step of a parsed workflow definition; `None` stands for both `undefined` and `null`. */
  datatype Step = Step(taskType: string, stepNumber: int, dependsOn: Option<string>)

  /** A truthy optional string: present and not empty. */
  predicate Truthy(s: Option<string>) {
    s.Some? && s.value != ""
  }

  /** Completed or Failed. */
  predicate Terminal(t: Task) {
    t.status == TaskStatus.Completed || t.status == TaskStatus.Failed
  }

  /** `t.result?.data` is truthy. */
  predicate HasData(t: Task) {
    t.result.Some? && t.result.value.data != ""
  }

  /** One `{taskId, type, status, output}` record of a final result or a report. */
  datatype Entry = Entry(taskId: TaskId, taskType: string, status: TaskStatus, output: Json)

  function EntryJson(e: Entry): Json {
    JObj([("taskId", JNum(e.taskId)), ("type", JStr(e.taskType)),
          ("status", JStr(TaskStatusText(e.status))), ("output", e.output)])
  }

  function EntriesJson(es: seq<Entry>): (r: seq<Json>)
    ensures |r| == |es|
    ensures forall i :: 0 <= i < |es| ==> r[i] == EntryJson(es[i])
  {
    if es == [] then [] else [EntryJson(es[0])] + EntriesJson(es[1..])
  }

  /**
   * `t.result?.data ? JSON.parse(t.result.data) : null`: the parsed result data, null when
   * there is none; `Err` is the SyntaxError thrown on data that does not parse.
   */
  function OutputOf(t: Task, codec: Codec): (r: Result<Json, string>)
    ensures !HasData(t) ==> r == Ok(JNull)
    ensures HasData(t) && codec.parse(t.result.value.data).Some? ==> r == Ok(codec.parse(t.result.value.data).value)
    ensures HasData(t) && codec.parse(t.result.value.data).None? ==> r == Err(codec.syntaxError(t.result.value.data))
  {
    if HasData(t) then
      match codec.parse(t.result.value.data)
      case Some(j) => Ok(j)
      case None => Err(codec.syntaxError(t.result.value.data))
    else Ok(JNull)
  }

  /**
   * `tasks.map(t => ({taskId, type, status, output}))`: one entry per task in order, or the
   * SyntaxError of the first task whose data does not parse.
   */
  function Entries(ts: seq<Task>, codec: Codec): (r: Result<seq<Entry>, string>)
    ensures r.Ok? <==> forall i :: 0 <= i < |ts| ==> OutputOf(ts[i], codec).Ok?
    ensures r.Ok? ==> |r.value| == |ts|
    ensures r.Ok? ==> forall i :: 0 <= i < |ts| ==>
      r.value[i] == Entry(ts[i].taskId, ts[i].taskType, ts[i].status, OutputOf(ts[i], codec).value)
    ensures r.Err? ==> exists i :: 0 <= i < |ts| && OutputOf(ts[i], codec).Err? && r.error == OutputOf(ts[i], codec).error &&
                                  (forall j :: 0 <= j < i ==> OutputOf(ts[j], codec).Ok?)
  {
    if ts == [] then Ok([])
    else
      match OutputOf(ts[0], codec)
      case Err(e) => Err(e)
      case Ok(out) =>
        match Entries(ts[1..], codec)
        case Err(e) => Err(e)
        case Ok(rest) => Ok([Entry(ts[0].taskId, ts[0].taskType, ts[0].status, out)] + rest)
  }
}
