/** The read-side queries: a workflow's status with its task counts, and its final result. */
module WorkflowService {
  import opened Wrappers
  import opened Json
  import opened Entities
  import Store
  import TaskRunner

  /** `WorkflowStatusDTO`. */
  datatype WorkflowStatusDto = WorkflowStatusDto(
    workflowId: WorkflowId,
    status: WorkflowStatus,
    completedTasks: nat,
    totalTasks: nat)

  /**
   * The errors the service throws: `NotFoundItemError` ("Workflow with ID .. not found."),
   * `BadStatusError` ("Workflow with ID .. is still in progress.") and the SyntaxError of
   * a final result that does not parse.
   */
  datatype ServiceError =
    | NotFoundItem(workflowId: WorkflowId)
    | BadStatus(workflowId: WorkflowId)
    | ResultSyntaxError(message: string)

  /** `tasks.reduce((acc, t) => acc + (finished ? 1 : 0), 0)`. */
  function FinishedCount(ts: seq<Task>): (n: nat)
    ensures n == |Store.Filter(ts, Terminal)|
    ensures n <= |ts|
    ensures n == |ts| <==> TaskRunner.AllFinished(ts)
    ensures n == 0 <==> forall i :: 0 <= i < |ts| ==> !Terminal(ts[i])
  {
    if ts == [] then 0
    else
      var rest := FinishedCount(ts[1..]);
      assert forall i :: 1 <= i < |ts| ==> ts[i] == ts[1..][i - 1];
      (if Terminal(ts[0]) then 1 else 0) + rest
  }

  /** `getWorkflowStatus`: nothing is written; an unknown id throws NotFoundItemError. */
  function GetWorkflowStatus(workflows: map<WorkflowId, Workflow>, tasks: seq<Task>, workflowId: WorkflowId)
    : (r: Result<WorkflowStatusDto, ServiceError>)
    ensures workflowId !in workflows <==> r.Err?
    ensures r.Err? ==> r.error == NotFoundItem(workflowId)
    ensures r.Ok? ==> r.value.workflowId == workflows[workflowId].workflowId
    ensures r.Ok? ==> r.value.status == workflows[workflowId].status
    ensures r.Ok? ==> r.value.totalTasks == |Store.WorkflowTasks(tasks, workflowId)|
    ensures r.Ok? ==> r.value.completedTasks == FinishedCount(Store.WorkflowTasks(tasks, workflowId))
    ensures r.Ok? ==> r.value.completedTasks <= r.value.totalTasks
    ensures r.Ok? ==> (r.value.completedTasks == r.value.totalTasks <==>
                       TaskRunner.AllFinished(Store.WorkflowTasks(tasks, workflowId)))
  {
    if workflowId !in workflows then Err(NotFoundItem(workflowId))
    else
      var w := workflows[workflowId];
      var ts := Store.WorkflowTasks(tasks, workflowId);
      Ok(WorkflowStatusDto(w.workflowId, w.status, FinishedCount(ts), |ts|))
  }

  /**
   * `getWorkflowResult`: an unknown id throws NotFoundItemError; status InProgress, or a
   * missing or empty final result, throws BadStatusError; otherwise the parsed final result.
   */
  function GetWorkflowResult(workflows: map<WorkflowId, Workflow>, workflowId: WorkflowId, codec: Codec)
    : (r: Result<Json, ServiceError>)
    ensures workflowId !in workflows ==> r == Err(NotFoundItem(workflowId))
    ensures workflowId in workflows && workflows[workflowId].status == WorkflowStatus.InProgress ==>
      r == Err(BadStatus(workflowId))
    ensures workflowId in workflows && !Truthy(workflows[workflowId].finalResult) ==> r == Err(BadStatus(workflowId))
    ensures r.Ok? <==>
      && workflowId in workflows
      && workflows[workflowId].status != WorkflowStatus.InProgress
      && Truthy(workflows[workflowId].finalResult)
      && codec.parse(workflows[workflowId].finalResult.value).Some?
    ensures r.Ok? ==> Some(r.value) == codec.parse(workflows[workflowId].finalResult.value)
  {
    if workflowId !in workflows then Err(NotFoundItem(workflowId))
    else
      var w := workflows[workflowId];
      if w.status == WorkflowStatus.InProgress then Err(BadStatus(workflowId))
      else if !Truthy(w.finalResult) then Err(BadStatus(workflowId))
      else
        match codec.parse(w.finalResult.value)
        case Some(j) => Ok(j)
        case None => Err(ResultSyntaxError(codec.syntaxError(w.finalResult.value)))
  }

  /**
   * After an aggregation: while some task is unfinished the result is refused, even if
   * an older final result is stored; once all are finished the result is one entry per
   * task, in loaded order.
   */
  lemma ResultFollowsAggregation(workflows: map<WorkflowId, Workflow>, workflowId: WorkflowId, ts: seq<Task>, codec: Codec)
    requires Lawful(codec) && workflowId in workflows
    requires TaskRunner.Aggregated(workflows[workflowId], ts, codec).Ok?
    ensures !TaskRunner.AllFinished(ts) ==>
      GetWorkflowResult(workflows[workflowId := TaskRunner.Aggregated(workflows[workflowId], ts, codec).value], workflowId, codec)
        == Err(BadStatus(workflowId))
    ensures TaskRunner.AllFinished(ts) ==>
      && |Entries(ts, codec).value| == |ts|
      && GetWorkflowResult(workflows[workflowId := TaskRunner.Aggregated(workflows[workflowId], ts, codec).value], workflowId, codec)
           == Ok(TaskRunner.FinalResultJson(Entries(ts, codec).value))
  {
    if TaskRunner.AllFinished(ts) {
      var doc := TaskRunner.FinalResultJson(Entries(ts, codec).value);
      assert codec.parse(codec.stringify(doc)) == Some(doc);
      assert codec.stringify(doc) != "";
    }
  }

  /** A workflow just created (status Initial, no final result) has no result to give. */
  lemma NewWorkflowHasNoResult(workflows: map<WorkflowId, Workflow>, workflowId: WorkflowId, clientId: string, codec: Codec)
    ensures GetWorkflowResult(workflows[workflowId := Workflow(workflowId, clientId, Initial, None)], workflowId, codec)
      == Err(BadStatus(workflowId))
  {
  }
}
