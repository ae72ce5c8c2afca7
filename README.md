# Workflow engine model

A Dafny model of the planning and execution core of a small workflow service. A
workflow definition is a list of steps. Each step names a task type, a step number
and, optionally, the task type it depends on. The core does four things:

- **Planning** (`WorkflowFactory`). It builds a map from each task type to its
  dependency and rejects the definition if a dependency chain loops. It then saves a
  workflow in status Initial and one Queued task per step, sorted by a pairwise
  comparator and renumbered 1..N.
- **Running a task** (`TaskRunner`). The task is saved InProgress, its job is looked up,
  a dependency's result is handed over as input, and the job's outcome is recorded as a
  Result. The task ends Completed or Failed, unless no job is registered for its type.
- **Aggregation** (`TaskRunner`). After a successful job, the workflow's status is
  recomputed from all of its tasks. Once all of them have finished and every result's
  data parses, a final result with one entry per task is stored.
- **Queries and the report job** (`WorkflowService`, `ReportGenerationJob`, `JobFactory`).
  The service reads a workflow's status counts and its final result. The report job
  lists the finished tasks of a workflow in step order. The registry maps each task
  type to its job.

The database is a `Store` class: the task table as a sequence in insertion order, the
workflow table as a map, and a counter that hands out fresh identifiers. Saving an
entity is an upsert by primary key. Loading `workflow.tasks` filters the task table by
workflow, in table order. `JSON.parse` and `JSON.stringify` are uninterpreted functions
in a `Codec` value. Where a property needs them, the proof assumes only the round-trip
law `Json.Lawful`: parsing a serialised document returns that document, and the empty
text does not parse.

Main results:

- `detectCycle` returns true exactly when the dependency chain from its start never
  reaches a name without a dependency (`WorkflowFactory.DetectCycleCorrect`).
- A definition is rejected exactly when its dependency map contains a loop
  (`WorkflowFactory.HasCycleIffCyclic`).
- `run` is specified on every path. An unknown type leaves the task InProgress. A
  rejected job is recorded Failed and the workflow is left alone. A resolved job is
  recorded Completed and the workflow is aggregated (`TaskRunner.Run`).
- An aggregated workflow is InProgress, Completed or Failed exactly as its tasks
  dictate. Its final result reads back as one entry per task
  (`TaskRunner.Aggregated`, `WorkflowService.ResultFollowsAggregation`).

### Behaviour of the code worth knowing

- Duplicate task types are not rejected. The last step that declares a dependency wins
  in the dependency map (`WorkflowFactory.DependencyMapLastWins`).
- The ordering is not a topological sort. The comparator is not transitive
  (`WorkflowFactory.CompareNotTransitive`), so the model takes the order `sort` leaves
  as a parameter.
- An unknown task type throws outside the `try`. The task stays InProgress with no
  Result; it is not marked Failed.
- A failed job rethrows before aggregation, so the failing run does not recompute the
  workflow. The next successful run of a task in that workflow does, and it counts the
  Failed task.
- Once every task has finished, aggregation parses every task's result data, failure
  messages included. If a failure message is not JSON, aggregation throws and the
  workflow is not saved
  (`TaskRunner.UnparsableMessageBlocksAggregation`).

## Model

| member | source | states |
|---|---|---|
| `Json.OrEmpty` | src/workers/taskRunner.ts:64 | `taskResult \|\| {}`: every falsy value becomes `{}`, and any other value is kept. |
| `Entities.Entries` | src/workers/taskRunner.ts:115-120 | One `{taskId, type, status, output}` entry per task, in order. If any output fails to parse, the error is the first failing task's SyntaxError. |
| `Store.Upsert` | src/workers/taskRunner.ts:28 | `save(t)` overwrites the row with `t`'s key, or appends `t` when there is none. Other rows are unchanged, and keys stay unique. |
| `Store.WorkflowTasks` | src/workers/taskRunner.ts:88-95 | The loaded `workflow.tasks` are exactly the rows of that workflow. When the table's keys are unique, so are the keys of the result, so each row appears once. |
| `Store.FindTask` | src/workers/taskRunner.ts:35-41 | `findOne` by task type and workflow returns a matching row. It returns none exactly when no row matches. |
| `Store.Store.InsertTasks` | src/workflows/WorkflowFactory.ts:114 | Saving new tasks appends them in list order, each with a fresh key. |
| `WorkflowFactory.DependencyMapKey` | src/workflows/WorkflowFactory.ts:63-69 | A task type is a key of the dependency map exactly when some step of that type has a truthy `dependsOn`. |
| `WorkflowFactory.DependencyMapLastWins` | src/workflows/WorkflowFactory.ts:65-69 | A key maps to the `dependsOn` of the last step of that type with a truthy dependency. Duplicates are not rejected. |
| `WorkflowFactory.BuildDependencyMap` | src/workflows/WorkflowFactory.ts:63-69 | The `forEach` loop builds exactly the dependency map. |
| `WorkflowFactory.DetectCycleFalseEnds` | src/workflows/WorkflowFactory.ts:36-50 | A false answer means the chain from the start reaches a name with no map entry. |
| `WorkflowFactory.DetectCycleTrueRepeats` | src/workflows/WorkflowFactory.ts:36-46 | A true answer means the chain from the start meets one of its own names again. |
| `WorkflowFactory.RepeatNeverEnds` | src/workflows/WorkflowFactory.ts:42-46 | Once a chain meets a name again, it continues forever. |
| `WorkflowFactory.DetectCycleCorrect` | src/workflows/WorkflowFactory.ts:36-50 | `detectCycle(t, map, [])` is true exactly when the chain from `t` never ends. |
| `WorkflowFactory.EndlessChainIsCyclic` | src/workflows/WorkflowFactory.ts:36-50 | In the finite map, a chain that never ends closes a loop. |
| `WorkflowFactory.HasCycleIffCyclic` | src/workflows/WorkflowFactory.ts:71 | Walking from every step with a dependency, each with a fresh `visited`, rejects the definition exactly when the dependency map has a loop. |
| `WorkflowFactory.SelfDependencyRejected` | src/workflows/WorkflowFactory.ts:40-44 | A step that depends on its own task type is rejected, provided it is the last such declaration. |
| `WorkflowFactory.TwoAndThreeCyclesRejected` | src/workflows/WorkflowFactory.ts:36-75 | The cycles a→b→a and a→b→c→a are both rejected. |
| `WorkflowFactory.DanglingChainAccepted` | src/workflows/WorkflowFactory.ts:47-49 | A chain ending at a name with no map entry (`area`→`fetch`) is accepted. |
| `WorkflowFactory.CompareAntisymmetric` | src/workflows/WorkflowFactory.ts:99-107 | Swapping the arguments flips the comparator's sign, unless the two tasks depend on each other. |
| `WorkflowFactory.CompareDependencyFirst` | src/workflows/WorkflowFactory.ts:100-103 | A dependent compares after its dependency, whatever their step numbers. |
| `WorkflowFactory.CompareNotTransitive` | src/workflows/WorkflowFactory.ts:99-107 | Some three tasks have a < b and b < c but a > c, so the comparator does not fix the order. |
| `WorkflowFactory.Permuted` | src/workflows/WorkflowFactory.ts:99 | The sorted list holds the same tasks as the drafts, each as often. It takes position i from the draft at `perm[i]`. |
| `WorkflowFactory.Renumber` | src/workflows/WorkflowFactory.ts:109-112 | After renumbering, the task at position i has step number i+1. Nothing else changes, and the length is kept. |
| `WorkflowFactory.PlanCoversSteps` | src/workflows/WorkflowFactory.ts:86-114 | Each step j is saved at exactly one position i of the plan. That task is step j's draft with the i-th fresh id and step number i+1. |
| `WorkflowFactory.CreateWorkflow` | src/workflows/WorkflowFactory.ts:59-117 | A cyclic definition throws before anything is saved. Otherwise it saves a fresh Initial workflow for the client, then one Queued task per step in sort order, numbered 1..N. Every step is saved exactly once. |
| `JobFactory.GetJobForTaskType` | src/jobs/JobFactory.ts:16-22 | The four registered types map to their jobs, and `report` is the one built with the task repository. Any other type throws "No job found for task type: ..". |
| `JobFactory.RegistryHasFourEntries` | src/jobs/JobFactory.ts:9-14 | The registry has exactly four keys, each bound to a different job. |
| `ReportGenerationJob.SortByStep` | src/jobs/ReportGenerationJob.ts:18 | The result is in ascending step order and is a permutation of its input. |
| `ReportGenerationJob.FinishedInStepOrder` | src/jobs/ReportGenerationJob.ts:13-20 | Exactly the Completed or Failed tasks of the workflow, in ascending step order, and no more than the workflow has. When the table's keys are unique, each such task appears once. |
| `ReportGenerationJob.Run` | src/jobs/ReportGenerationJob.ts:10-36 | The report carries the running task's workflow id, the constant `finalReport` and one entry per finished task, with distinct task ids when the table's keys are unique. A parse error makes the job throw. |
| `ReportGenerationJob.ReportEntries` | src/jobs/ReportGenerationJob.ts:22-31 | Each entry is a finished task of the same workflow, with output `null` when it has no data. Entries follow ascending step numbers. |
| `ReportGenerationJob.ReportExcludesInProgress` | src/jobs/ReportGenerationJob.ts:16 | A task whose row is InProgress never appears in the report. |
| `TaskRunner.Started` | src/workers/taskRunner.ts:26-28 | The entity first saved is InProgress with progress `'starting job...'`, and nothing else changes. |
| `TaskRunner.SuccessData` | src/workers/taskRunner.ts:64 | The stored data is non-empty and parses back to the job's output, or to `{}` for a falsy output. |
| `TaskRunner.FailureData` | src/workers/taskRunner.ts:76 | The stored data is the error message when it is truthy, and the fallback text otherwise. It is never empty. |
| `TaskRunner.Recorded` | src/workers/taskRunner.ts:62-82 | After the job, the task is Completed or Failed to match the outcome, with no progress and the matching Result. Nothing else changes. |
| `TaskRunner.RecordedOutput` | src/workers/taskRunner.ts:62-120 | What aggregation and the report read back from a recorded task. For a successful job it is that job's output, or `{}` for a falsy one. For a failed job it is the parsed message, or the SyntaxError when the message is not JSON. |
| `TaskRunner.ParseInput` | src/workers/taskRunner.ts:43-55 | Data that parses to an object or array is passed parsed. Anything else, including data that does not parse, is passed as raw text. |
| `TaskRunner.ResolveInput` | src/workers/taskRunner.ts:34-56 | There is an input exactly when `dependsOn` is truthy and the dependency task is found with non-empty data. |
| `TaskRunner.SuccessfulOutputFlowsToDependent` | src/workers/taskRunner.ts:43-51 | A dependency that succeeded hands its object output over parsed (`{}` for nothing). Any other value is handed over as its text. |
| `TaskRunner.FailureMessageFlowsToDependent` | src/workers/taskRunner.ts:52-54 | A failed dependency whose message does not parse hands that message over as raw text. |
| `TaskRunner.ReportExcludesItself` | src/workers/taskRunner.ts:26-28 | Because the task is saved InProgress first, the report job never lists the task that runs it. |
| `TaskRunner.Aggregated` | src/workers/taskRunner.ts:97-124 | The status is InProgress exactly when some task is unfinished. It is Failed exactly when all are finished and one failed, and Completed exactly when all completed. `finalResult` is set only when all are finished. |
| `TaskRunner.AggregationIdempotent` | src/workers/taskRunner.ts:99-123 | Aggregating again over the same tasks changes nothing. |
| `TaskRunner.UnparsableMessageBlocksAggregation` | src/workers/taskRunner.ts:119 | Once all tasks are finished, any result data that does not parse makes aggregation throw. |
| `TaskRunner.AggregationEffect` | src/workers/taskRunner.ts:87-127 | The workflow table keeps its keys, and every other workflow is unchanged. Aggregation throws exactly when the workflow exists, all its tasks are finished and some data does not parse; the table is then unchanged. Otherwise the workflow is saved as aggregated. |
| `TaskRunner.AggregateWorkflow` | src/workers/taskRunner.ts:87-127 | The workflow table afterwards, and how `run` settles, are exactly the aggregation effect. |
| `TaskRunner.Run` | src/workers/taskRunner.ts:25-128 | The task is saved InProgress first. An unknown type then throws with nothing more written. A rejected job is saved Failed and rethrown, and the workflow is untouched. A resolved job is saved Completed and the workflow is aggregated. |
| `WorkflowService.FinishedCount` | src/workflows/WorkflowService.ts:44 | `completedTasks` is the number of Completed or Failed tasks: the length of the table filtered by that status. It is at most the total, equals it exactly when all are finished, and is zero exactly when none is. |
| `WorkflowService.GetWorkflowStatus` | src/workflows/WorkflowService.ts:31-51 | An unknown id throws NotFoundItemError. Otherwise it returns the stored id and status, the finished count and the total, and completed ≤ total. |
| `WorkflowService.GetWorkflowResult` | src/workflows/WorkflowService.ts:59-78 | An unknown id throws NotFoundItemError. InProgress, or a missing or empty `finalResult`, throws BadStatusError. Otherwise it returns the parse of `finalResult`. |
| `WorkflowService.ResultFollowsAggregation` | src/workflows/WorkflowService.ts:68-77 | After aggregation over unfinished tasks, the result is refused. Once all are finished, it reads back one entry per task. |
| `WorkflowService.NewWorkflowHasNoResult` | src/workflows/WorkflowService.ts:72-77 | A new workflow (Initial, no final result) throws BadStatusError. |

## Left out

- Reading the definition file (`fs.readFileSync`, `yaml.load`) is I/O plus a foreign parser. The model starts from the parsed steps.
- The JSON grammar is not modelled. `JSON.parse` and `JSON.stringify` are the `Codec` functions, and round-trip facts assume only `Json.Lawful`. Numbers are integers: floating point, `NaN` and `-0` are not modelled, and neither is `JSON.stringify` of values that are not JSON.
- Json.Lawful is assumed only for documents a JavaScript value can produce. Real JSON breaks the exact round trip for objects with duplicate keys (the last one wins), for integer-like keys (a JavaScript object lists them first) and for integers above 2^53 (they lose precision). The model does not rule out such `Json` values.
- Identifiers are natural numbers drawn from the store's counter, not uuids, and they serialise as JSON numbers. The error messages of `NotFoundItemError` and `BadStatusError` are carried as the workflow id.
- Persistence is an in-memory store. Transactions, query semantics beyond the shown `where` and `order`, and the Result table as a separate row are not modelled: a Result is folded into its task. Relations load in table order, `findOne` returns the first matching row, and `save` of a task with an unknown key inserts it.
- Task entities are values, so the in-place mutation of the caller's `task` object is not modelled. Only what is saved is observable.
- WorkflowFactory.CreateWorkflow: the order `tasks.sort` leaves is the parameter `sortOrder`, any permutation, because with this comparator the result of `Array.prototype.sort` is implementation-defined. So no ordering between a task and its dependency is claimed.
- ReportGenerationJob.SortByStep: tasks with equal step numbers stay in table order; the database leaves that order unspecified.
- The three other jobs (`DataAnalysisJob`, `EmailNotificationJob`, `PolygonAreaJob`) are the `Units` parameter of `TaskRunner.Run`. `PolygonAreaJob`'s area computation (floating point, a foreign geometry library) is not part of this model.
- Concurrent runners racing on the workflow row's read-modify-write are not modelled; every operation runs sequentially.
- The HTTP routes, `console.log`, and prototype-key lookups on `jobMap` (such as `'toString'`) are not modelled.
