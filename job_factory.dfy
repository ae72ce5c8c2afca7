/** The registry from task type to the job that runs it. */
module JobFactory {
  import opened Wrappers

  /** The four jobs. */
  datatype Job = DataAnalysis | EmailNotification | PolygonArea | ReportGeneration

  /**
   * The job built with the task repository (`new ReportGenerationJob(repository)`). This
   * marks the job by name; the model gives the task table only to that job, because
   * `TaskRunner.RunJob` computes the report from it, while the other jobs run as
   * `TaskRunner.Units`, which receives no table.
   */
  predicate UsesRepository(j: Job) {
    j.ReportGeneration?
  }

  /** `jobMap`. */
  const Registry: map<string, Job> :=
    map["analysis" := DataAnalysis, "notification" := EmailNotification,
        "area" := PolygonArea, "report" := ReportGeneration]

  function NoJobMessage(taskType: string): string {
    "No job found for task type: " + taskType
  }

  /** `getJobForTaskType`: the registered job, or the error thrown for any other task type. */
  function GetJobForTaskType(taskType: string): (r: Result<Job, string>)
    ensures taskType == "analysis" ==> r == Ok(DataAnalysis)
    ensures taskType == "notification" ==> r == Ok(EmailNotification)
    ensures taskType == "area" ==> r == Ok(PolygonArea)
    ensures taskType == "report" ==> r == Ok(ReportGeneration)
    ensures r.Ok? <==> taskType in {"analysis", "notification", "area", "report"}
    ensures r.Err? ==> r.error == NoJobMessage(taskType)
    ensures r.Ok? && UsesRepository(r.value) <==> taskType == "report"
  {
    if taskType in Registry then Ok(Registry[taskType]) else Err(NoJobMessage(taskType))
  }

  /** The task type each job is registered under. */
  function RegisteredType(j: Job): string {
    match j
    case DataAnalysis => "analysis"
    case EmailNotification => "notification"
    case PolygonArea => "area"
    case ReportGeneration => "report"
  }

  /** The registry holds exactly four task types, each bound to a different job. */
  lemma RegistryHasFourEntries()
    ensures |Registry.Keys| == 4
    ensures forall a, b :: a in Registry && b in Registry && a != b ==> Registry[a] != Registry[b]
  {
    assert Registry.Keys == {"analysis", "notification", "area"} + {"report"};
    assert |{"analysis", "notification"} + {"area"}| == 3;
    assert forall a :: a in Registry ==> RegisteredType(Registry[a]) == a;
  }
}
