/**
 * The report job: the finished tasks of the running task's workflow, ordered by step
 * number, each mapped to `{taskId, type, status, output}`.
 */
module ReportGenerationJob {
  import opened Wrappers
  import opened Json
  import opened Entities
  import Store

  const FinalReport := "Aggregated data and results"

  datatype Report = Report(workflowId: WorkflowId, tasks: seq<Entry>, finalReport: string)

  /** The object the job returns. */
  function ReportJson(r: Report): Json {
    JObj([("workflowId", JNum(r.workflowId)), ("tasks", JArr(EntriesJson(r.tasks))),
          ("finalReport", JStr(r.finalReport))])
  }

  predicate SortedBySteps(ts: seq<Task>) {
    forall i, j :: 0 <= i < j < |ts| ==> ts[i].stepNumber <= ts[j].stepNumber
  }

  /** After inserting `t` above the head, the head still bounds every task of the tail. */
  lemma HeadBoundsRest(t: Task, ts: seq<Task>, rest: seq<Task>)
    requires SortedBySteps(ts) && |ts| > 0 && ts[0].stepNumber < t.stepNumber
    requires multiset(rest) == multiset(ts[1..]) + multiset{t}
    ensures forall k :: 0 <= k < |rest| ==> ts[0].stepNumber <= rest[k].stepNumber
  {
    forall k | 0 <= k < |rest|
      ensures ts[0].stepNumber <= rest[k].stepNumber
    {
      assert rest[k] in multiset(rest);
      if rest[k] != t {
        assert rest[k] in multiset(ts[1..]);
        var j :| 0 <= j < |ts[1..]| && ts[1..][j] == rest[k];
        assert ts[j + 1] == rest[k];
      }
    }
  }

  lemma SortedCons(x: Task, rest: seq<Task>)
    requires SortedBySteps(rest)
    requires forall k :: 0 <= k < |rest| ==> x.stepNumber <= rest[k].stepNumber
    ensures SortedBySteps([x] + rest)
  {
    var r := [x] + rest;
    forall i, j | 0 <= i < j < |r|
      ensures r[i].stepNumber <= r[j].stepNumber
    {
      assert r[j] == rest[j - 1];
      if i > 0 {
        assert r[i] == rest[i - 1];
      }
    }
  }

  function InsertByStep(t: Task, ts: seq<Task>): (r: seq<Task>)
    requires SortedBySteps(ts)
    ensures SortedBySteps(r)
    ensures multiset(r) == multiset(ts) + multiset{t}
    ensures |r| == |ts| + 1
  {
    if ts == [] then [t]
    else if t.stepNumber <= ts[0].stepNumber then
      SortedCons(t, ts);
      [t] + ts
    else
      var rest := InsertByStep(t, ts[1..]);
      assert ts == [ts[0]] + ts[1..];
      HeadBoundsRest(t, ts, rest);
      SortedCons(ts[0], rest);
      [ts[0]] + rest
  }

  /** `order: { stepNumber: 'ASC' }`: ascending step numbers; equal step numbers keep table order. */
  function SortByStep(ts: seq<Task>): (r: seq<Task>)
    ensures SortedBySteps(r)
    ensures multiset(r) == multiset(ts)
    ensures |r| == |ts|
  {
    if ts == [] then []
    else
      assert ts == [ts[0]] + ts[1..];
      InsertByStep(ts[0], SortByStep(ts[1..]))
  }

  /** `find({ where: { workflow, status: In([Completed, Failed]) }, order: { stepNumber: 'ASC' } })`. */
  function FinishedInStepOrder(tasks: seq<Task>, workflowId: WorkflowId): (r: seq<Task>)
    ensures SortedBySteps(r)
    ensures forall x :: x in r <==> x in tasks && x.workflowId == workflowId && Terminal(x)
    ensures |r| <= |Store.WorkflowTasks(tasks, workflowId)|
    ensures Store.UniqueIds(tasks) ==> Store.UniqueIds(r)
  {
    var p := (t: Task) => t.workflowId == workflowId && Terminal(t);
    var selected := Store.Filter(tasks, p);
    Store.FilterStronger(tasks, p, (t: Task) => t.workflowId == workflowId);
    var r := SortByStep(selected);
    Store.SameRowsKeepUniqueIds(r, selected);
    forall x ensures x in r <==> x in selected {
      assert x in r <==> x in multiset(r);
      assert x in selected <==> x in multiset(selected);
    }
    r
  }

  /** `ReportGenerationJob.run(task)`; `Err` is the SyntaxError of result data that does not parse. */
  function Run(tasks: seq<Task>, task: Task, codec: Codec): (r: Result<Report, string>)
    ensures r.Ok? <==> Entries(FinishedInStepOrder(tasks, task.workflowId), codec).Ok?
    ensures r.Ok? ==> r.value.workflowId == task.workflowId && r.value.finalReport == FinalReport
    ensures r.Ok? ==> r.value.tasks == Entries(FinishedInStepOrder(tasks, task.workflowId), codec).value
    ensures r.Ok? ==> |r.value.tasks| <= |Store.WorkflowTasks(tasks, task.workflowId)|
    ensures r.Ok? && Store.UniqueIds(tasks) ==>
      forall i, j :: 0 <= i < j < |r.value.tasks| ==> r.value.tasks[i].taskId != r.value.tasks[j].taskId
  {
    match Entries(FinishedInStepOrder(tasks, task.workflowId), codec)
    case Err(e) => Err(e)
    case Ok(es) => Ok(Report(task.workflowId, es, FinalReport))
  }

  /**
   * Every entry is a finished task of the same workflow, entries follow ascending step
   * numbers, and tasks with no result data report `null`.
   */
  lemma ReportEntries(tasks: seq<Task>, task: Task, codec: Codec, i: int)
    requires Run(tasks, task, codec).Ok?
    requires 0 <= i < |Run(tasks, task, codec).value.tasks|
    ensures exists t :: (t in tasks && t.workflowId == task.workflowId && Terminal(t) &&
      Run(tasks, task, codec).value.tasks[i] == Entry(t.taskId, t.taskType, t.status, OutputOf(t, codec).value) &&
      (!HasData(t) ==> Run(tasks, task, codec).value.tasks[i].output == JNull))
    ensures forall j :: i < j < |Run(tasks, task, codec).value.tasks| ==>
      FinishedInStepOrder(tasks, task.workflowId)[i].stepNumber <= FinishedInStepOrder(tasks, task.workflowId)[j].stepNumber
  {
    var ordered := FinishedInStepOrder(tasks, task.workflowId);
    assert ordered[i] in ordered;
  }

  /** A task whose own row is InProgress never appears in its report. */
  lemma ReportExcludesInProgress(tasks: seq<Task>, task: Task, codec: Codec)
    requires Store.UniqueIds(tasks)
    requires forall x :: x in tasks && x.taskId == task.taskId ==> x.status == TaskStatus.InProgress
    requires Run(tasks, task, codec).Ok?
    ensures forall e :: e in Run(tasks, task, codec).value.tasks ==> e.taskId != task.taskId
  {
    var ordered := FinishedInStepOrder(tasks, task.workflowId);
    var es := Run(tasks, task, codec).value.tasks;
    forall e | e in es ensures e.taskId != task.taskId {
      var i :| 0 <= i < |es| && es[i] == e;
      assert ordered[i] in ordered;
    }
  }
}
