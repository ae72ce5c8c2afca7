/**
 * `TaskRunner.run`: the task state machine (Queued -> InProgress -> Completed | Failed),
 * the input handed over from a dependency, the Result record, and the aggregation of
 * the workflow's status and final result.
 */
module TaskRunner {
  import opened Wrappers
  import opened Json
  import opened Entities
  import opened JobFactory
  import Store
  import ReportGenerationJob

  const StartingProgress := "starting job..."
  const FallbackMessage := "An error occurred while running the job"

  /** `taskParams`: undefined, a parsed object or array, or the raw result text. */
  datatype Input = NoInput | Structured(doc: Json) | RawText(text: string)

  /** What a job's promise settles to: a return value (`None` is `undefined`), or a rejection with an optional message. */
  datatype JobOutcome = JobResolved(output: Option<Json>) | JobRejected(message: Option<string>)

  /** The jobs other than the report job, which are outside this model. */
  type Units = (Job, Task, Input) -> JobOutcome

  /** Why `run` rejects. */
  datatype RunError =
    | NoJobFound(message: string)
    | JobError(jobMessage: Option<string>)
    | AggregationSyntaxError(message: string)

  datatype RunOutcome = Resolved | Rejected(error: RunError)

  // ---------------------------------------------------------------------------
  // The task's own record

  /** Lines 26-27 of `run`: the entity as first saved. */
  function Started(task: Task): (t: Task)
    ensures t.status == TaskStatus.InProgress && t.progress == Some(StartingProgress)
    ensures t.(status := task.status, progress := task.progress) == task
  {
    task.(status := TaskStatus.InProgress, progress := Some(StartingProgress))
  }

  /** `JSON.stringify(taskResult || {})`: it parses back to the returned value, `{}` for a falsy one. */
  function SuccessData(output: Option<Json>, codec: Codec): (data: string)
    ensures Lawful(codec) ==> codec.parse(data) == Some(OrEmpty(output)) && data != ""
    ensures Lawful(codec) && Falsy(output) ==> codec.parse(data) == Some(JObj([]))
  {
    codec.stringify(OrEmpty(output))
  }

  /** `error?.message || 'An error occurred while running the job'`: never empty. */
  function FailureData(message: Option<string>): (data: string)
    ensures data != ""
    ensures Truthy(message) ==> data == message.value
    ensures !Truthy(message) ==> data == FallbackMessage
  {
    if Truthy(message) then message.value else FallbackMessage
  }

  /** The entity as saved once the job has settled: a terminal status, no progress, a Result attached. */
  function Recorded(started: Task, outcome: JobOutcome, codec: Codec): (t: Task)
    ensures t.status == (if outcome.JobResolved? then TaskStatus.Completed else TaskStatus.Failed)
    ensures Terminal(t) && t.progress.None? && t.result.Some?
    ensures outcome.JobRejected? || Lawful(codec) ==> HasData(t)
    ensures outcome.JobResolved? ==> t.result == Some(TaskResult(SuccessData(outcome.output, codec)))
    ensures outcome.JobRejected? ==> t.result == Some(TaskResult(FailureData(outcome.message)))
    ensures t.(status := started.status, progress := started.progress, result := started.result) == started
  {
    match outcome
    case JobResolved(output) =>
      started.(result := Some(TaskResult(SuccessData(output, codec))), status := TaskStatus.Completed, progress := None)
    case JobRejected(message) =>
      started.(status := TaskStatus.Failed, progress := None, result := Some(TaskResult(FailureData(message))))
  }

  /**
   * What aggregation and the report read back from a recorded task: a successful job's
   * output (`{}` for a falsy one), and for a failed job the parsed message or the
   * SyntaxError thrown on it.
   */
  lemma RecordedOutput(started: Task, output: Option<Json>, message: Option<string>, codec: Codec)
    requires Lawful(codec)
    ensures OutputOf(Recorded(started, JobResolved(output), codec), codec) == Ok(OrEmpty(output))
    ensures codec.parse(FailureData(message)).Some? ==>
      OutputOf(Recorded(started, JobRejected(message), codec), codec) == Ok(codec.parse(FailureData(message)).value)
    ensures codec.parse(FailureData(message)).None? ==>
      OutputOf(Recorded(started, JobRejected(message), codec), codec) == Err(codec.syntaxError(FailureData(message)))
  {
  }

  // ---------------------------------------------------------------------------
  // Input resolution

  /** The parse-or-raw rule applied to non-empty result data. */
  function ParseInput(data: string, codec: Codec): (r: Input)
    ensures r.Structured? <==> codec.parse(data).Some? && IsObject(codec.parse(data).value)
    ensures r.Structured? ==> codec.parse(data) == Some(r.doc)
    ensures !r.Structured? ==> r == RawText(data)
  {
    match codec.parse(data)
    case Some(parsed) => if IsObject(parsed) then Structured(parsed) else RawText(data)
    case None => RawText(data)
  }

  /**
   * The input handed to the job: only a task with a truthy `dependsOn` whose dependency
   * (the first task of that type in the same workflow) has non-empty result data gets one.
   */
  function ResolveInput(tasks: seq<Task>, task: Task, codec: Codec): (r: Input)
    ensures r != NoInput <==>
      Truthy(task.dependsOn) &&
      Store.FindTask(tasks, task.dependsOn.value, task.workflowId).Some? &&
      HasData(Store.FindTask(tasks, task.dependsOn.value, task.workflowId).value)
    ensures r != NoInput ==>
      r == ParseInput(Store.FindTask(tasks, task.dependsOn.value, task.workflowId).value.result.value.data, codec)
  {
    if Truthy(task.dependsOn) then
      match Store.FindTask(tasks, task.dependsOn.value, task.workflowId)
      case Some(dep) =>
        if HasData(dep) then ParseInput(dep.result.value.data, codec) else NoInput
      case None => NoInput
    else NoInput
  }

  /**
   * A dependency that succeeded hands its output to the dependent task: an object or an
   * array as the parsed value (`{}` when the job returned nothing), any other value as
   * its serialised text.
   */
  lemma SuccessfulOutputFlowsToDependent(tasks: seq<Task>, task: Task, dep: Task, output: Option<Json>, codec: Codec)
    requires Lawful(codec)
    requires Truthy(task.dependsOn)
    requires Store.FindTask(tasks, task.dependsOn.value, task.workflowId) == Some(Recorded(dep, JobResolved(output), codec))
    ensures IsObject(OrEmpty(output)) ==> ResolveInput(tasks, task, codec) == Structured(OrEmpty(output))
    ensures !IsObject(OrEmpty(output)) ==> ResolveInput(tasks, task, codec) == RawText(codec.stringify(OrEmpty(output)))
  {
  }

  /** A dependency that failed hands over its message as raw text, unless the message happens to parse as an object. */
  lemma FailureMessageFlowsToDependent(tasks: seq<Task>, task: Task, dep: Task, message: Option<string>, codec: Codec)
    requires Truthy(task.dependsOn)
    requires Store.FindTask(tasks, task.dependsOn.value, task.workflowId) == Some(Recorded(dep, JobRejected(message), codec))
    requires codec.parse(FailureData(message)).None?
    ensures ResolveInput(tasks, task, codec) == RawText(FailureData(message))
  {
  }

  // ---------------------------------------------------------------------------
  // Running the job

  /** The job's settled promise; the report job reads the task table as it is once the task has been started. */
  function RunJob(job: Job, tasks: seq<Task>, task: Task, input: Input, codec: Codec, units: Units): (r: JobOutcome)
    ensures job != ReportGeneration ==> r == units(job, task, input)
    ensures job == ReportGeneration ==>
      (r.JobResolved? <==> ReportGenerationJob.Run(tasks, task, codec).Ok?)
    ensures job == ReportGeneration && r.JobResolved? ==>
      r.output == Some(ReportGenerationJob.ReportJson(ReportGenerationJob.Run(tasks, task, codec).value))
  {
    match job
    case ReportGeneration =>
      (match ReportGenerationJob.Run(tasks, task, codec)
       case Ok(report) => JobResolved(Some(ReportGenerationJob.ReportJson(report)))
       case Err(message) => JobRejected(Some(message)))
    case _ => units(job, task, input)
  }

  /** The report job never lists the task that runs it: `run` has already saved that task InProgress. */
  lemma ReportExcludesItself(tasks: seq<Task>, task: Task, codec: Codec)
    requires Store.UniqueIds(tasks)
    requires ReportGenerationJob.Run(Store.Upsert(tasks, Started(task)), Started(task), codec).Ok?
    ensures forall e :: e in ReportGenerationJob.Run(Store.Upsert(tasks, Started(task)), Started(task), codec).value.tasks ==>
      e.taskId != task.taskId
  {
    ReportGenerationJob.ReportExcludesInProgress(Store.Upsert(tasks, Started(task)), Started(task), codec);
  }

  // ---------------------------------------------------------------------------
  // Aggregation

  /** `tasks.every(t => t.status === Completed || t.status === Failed)`. */
  predicate AllFinished(ts: seq<Task>) {
    forall i :: 0 <= i < |ts| ==> Terminal(ts[i])
  }

  /** `tasks.every(t => t.status === Completed)`. */
  predicate AllCompleted(ts: seq<Task>) {
    forall i :: 0 <= i < |ts| ==> ts[i].status == TaskStatus.Completed
  }

  /** `tasks.some(t => t.status === Failed)`. */
  predicate AnyFailed(ts: seq<Task>) {
    exists i :: 0 <= i < |ts| && ts[i].status == TaskStatus.Failed
  }

  /** `{ tasks: [...] }`, the object serialised into `finalResult`. */
  function FinalResultJson(es: seq<Entry>): Json {
    JObj([("tasks", JArr(EntriesJson(es)))])
  }

  /**
   * The workflow after aggregation over its loaded tasks `ts`, or the SyntaxError thrown
   * when all are finished and some result data does not parse.
   */
  function Aggregated(w: Workflow, ts: seq<Task>, codec: Codec): (r: Result<Workflow, string>)
    ensures r.Err? <==> AllFinished(ts) && Entries(ts, codec).Err?
    ensures r.Ok? ==> r.value.workflowId == w.workflowId && r.value.clientId == w.clientId
    ensures r.Ok? ==> (r.value.status == WorkflowStatus.InProgress <==> !AllFinished(ts))
    ensures r.Ok? ==> (r.value.status == WorkflowStatus.Failed <==> AllFinished(ts) && AnyFailed(ts))
    ensures r.Ok? ==> (r.value.status == WorkflowStatus.Completed <==> AllCompleted(ts))
    ensures r.Ok? ==> r.value.status != Initial
    ensures r.Ok? && !AllFinished(ts) ==> r.value.finalResult == w.finalResult
    ensures r.Ok? && AllFinished(ts) ==>
      r.value.finalResult == Some(codec.stringify(FinalResultJson(Entries(ts, codec).value)))
  {
    if !AllFinished(ts) then Ok(w.(status := WorkflowStatus.InProgress))
    else
      var status :=
        if AnyFailed(ts) then WorkflowStatus.Failed
        else if AllCompleted(ts) then WorkflowStatus.Completed
        else WorkflowStatus.InProgress;
      match Entries(ts, codec)
      case Err(e) => Err(e)
      case Ok(es) => Ok(w.(status := status, finalResult := Some(codec.stringify(FinalResultJson(es)))))
  }

  /** Aggregating again over the same tasks changes nothing. */
  lemma AggregationIdempotent(w: Workflow, ts: seq<Task>, codec: Codec)
    requires Aggregated(w, ts, codec).Ok?
    ensures Aggregated(Aggregated(w, ts, codec).value, ts, codec) == Aggregated(w, ts, codec)
  {
  }

  /**
   * Once every task has finished, a Failed task whose message is not JSON makes
   * aggregation throw, so such a workflow is never saved as Failed.
   */
  lemma UnparsableMessageBlocksAggregation(w: Workflow, ts: seq<Task>, codec: Codec, i: int)
    requires AllFinished(ts) && 0 <= i < |ts| && HasData(ts[i]) && codec.parse(ts[i].result.value.data).None?
    ensures Aggregated(w, ts, codec).Err?
  {
    assert OutputOf(ts[i], codec).Err?;
  }

  /**
   * The effect of aggregation on the workflow table and how `run` settles. Only the
   * running task's workflow can change, and only when aggregation succeeds; it throws
   * exactly when that workflow exists, all its tasks are finished and some data does
   * not parse.
   */
  function AggregationEffect(workflows: map<WorkflowId, Workflow>, tasks: seq<Task>, workflowId: WorkflowId, codec: Codec)
    : (r: (map<WorkflowId, Workflow>, RunOutcome))
    ensures r.0.Keys == workflows.Keys
    ensures forall id :: id in workflows && id != workflowId ==> r.0[id] == workflows[id]
    ensures r.1.Rejected? <==>
      workflowId in workflows && AllFinished(Store.WorkflowTasks(tasks, workflowId)) &&
      Entries(Store.WorkflowTasks(tasks, workflowId), codec).Err?
    ensures r.1.Rejected? ==> r.0 == workflows && r.1.error.AggregationSyntaxError?
    ensures r.1.Resolved? && workflowId in workflows ==>
      r.0[workflowId] == Aggregated(workflows[workflowId], Store.WorkflowTasks(tasks, workflowId), codec).value
  {
    if workflowId !in workflows then (workflows, Resolved)
    else
      match Aggregated(workflows[workflowId], Store.WorkflowTasks(tasks, workflowId), codec)
      case Ok(w) => (workflows[workflowId := w], Resolved)
      case Err(e) => (workflows, Rejected(AggregationSyntaxError(e)))
  }

  /** Load the workflow with its tasks, recompute it and save it whenever it was found. */
  method AggregateWorkflow(store: Store.Store, workflowId: WorkflowId, codec: Codec) returns (r: RunOutcome)
    requires store.Valid()
    modifies store`workflows, store`nextId
    ensures store.Valid()
    ensures (store.workflows, r) == AggregationEffect(old(store.workflows), store.tasks, workflowId, codec)
    ensures store.nextId == old(store.nextId)
  {
    if workflowId !in store.workflows {
      return Resolved;
    }
    var current := store.workflows[workflowId];
    var tasks := Store.WorkflowTasks(store.tasks, workflowId);
    match Aggregated(current, tasks, codec)
    case Err(e) =>
      r := Rejected(AggregationSyntaxError(e));
    case Ok(updated) =>
      store.SaveWorkflow(updated);
      r := Resolved;
  }

  /**
   * `TaskRunner.run(task)`. The task is saved InProgress before anything else; an unknown
   * task type throws outside the `try`; a job that rejects is recorded Failed and its
   * error rethrown before aggregation; a job that resolves is recorded Completed and the
   * workflow is aggregated.
   */
  method Run(store: Store.Store, task: Task, codec: Codec, units: Units) returns (r: RunOutcome)
    requires store.Valid()
    modifies store
    ensures store.Valid()
    ensures store.nextId == Store.Max(old(store.nextId), task.taskId + 1)
    ensures GetJobForTaskType(task.taskType).Err? ==>
      && r == Rejected(NoJobFound(NoJobMessage(task.taskType)))
      && store.tasks == Store.Upsert(old(store.tasks), Started(task))
      && store.workflows == old(store.workflows)
    ensures GetJobForTaskType(task.taskType).Ok? ==>
      var afterStart := Store.Upsert(old(store.tasks), Started(task));
      var input := ResolveInput(afterStart, Started(task), codec);
      var outcome := RunJob(GetJobForTaskType(task.taskType).value, afterStart, Started(task), input, codec, units);
      var afterRecord := Store.Upsert(afterStart, Recorded(Started(task), outcome, codec));
      && store.tasks == afterRecord
      && (outcome.JobRejected? ==> r == Rejected(JobError(outcome.message)) && store.workflows == old(store.workflows))
      && (outcome.JobResolved? ==>
            (store.workflows, r) == AggregationEffect(old(store.workflows), afterRecord, task.workflowId, codec))
  {
    var started := Started(task);
    store.SaveTask(started);
    var job := GetJobForTaskType(task.taskType);
    if job.Err? {
      return Rejected(NoJobFound(job.error));
    }
    var input := ResolveInput(store.tasks, started, codec);
    var outcome := RunJob(job.value, store.tasks, started, input, codec, units);
    var finished := Recorded(started, outcome, codec);
    store.SaveTask(finished);
    if outcome.JobRejected? {
      return Rejected(JobError(outcome.message));
    }
    r := AggregateWorkflow(store, task.workflowId, codec);
  }
}
