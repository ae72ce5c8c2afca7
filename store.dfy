/**
 * The database, reduced to an in-memory store: the task table in insertion order, the
 * workflow table keyed by id, and the generator of fresh identifiers. Saving is an
 * upsert by primary key; a relation load (`workflow.tasks`) is a filter of the task
 * table in table order.
 */
module Store {
  import opened Wrappers
  import opened Entities

  /** No two rows of the task table share a primary key. */
  predicate UniqueIds(ts: seq<Task>) {
    forall i, j :: 0 <= i < j < |ts| ==> ts[i].taskId != ts[j].taskId
  }

  /** Position of the row with primary key `id`, or -1. */
  function IndexOf(ts: seq<Task>, id: TaskId): (k: int)
    ensures -1 <= k < |ts|
    ensures k >= 0 ==> ts[k].taskId == id && forall j :: 0 <= j < k ==> ts[j].taskId != id
    ensures k < 0 ==> forall j :: 0 <= j < |ts| ==> ts[j].taskId != id
  {
    if ts == [] then -1
    else if ts[0].taskId == id then 0
    else
      var k := IndexOf(ts[1..], id);
      if k < 0 then -1 else k + 1
  }

  /** `repository.save(t)`: overwrite the row with `t`'s key, or append `t` when there is none. */
  function Upsert(ts: seq<Task>, t: Task): (r: seq<Task>)
    ensures IndexOf(ts, t.taskId) >= 0 ==> |r| == |ts| && r[IndexOf(ts, t.taskId)] == t
    ensures IndexOf(ts, t.taskId) < 0 ==> r == ts + [t]
    ensures forall j :: 0 <= j < |ts| && ts[j].taskId != t.taskId ==> r[j] == ts[j]
    ensures UniqueIds(ts) ==> UniqueIds(r)
    ensures UniqueIds(ts) ==> forall x :: x in r && x.taskId == t.taskId ==> x == t
  {
    var k := IndexOf(ts, t.taskId);
    if k >= 0 then ts[k := t] else ts + [t]
  }

  /** The rows that satisfy `p`, in table order. */
  function Filter(ts: seq<Task>, p: Task -> bool): (r: seq<Task>)
    ensures forall x :: x in r <==> x in ts && p(x)
    ensures |r| <= |ts|
    ensures UniqueIds(ts) ==> UniqueIds(r)
  {
    if ts == [] then []
    else
      var rest := Filter(ts[1..], p);
      assert forall x :: x in ts[1..] ==> x in ts;
      if p(ts[0]) then
        assert UniqueIds(ts) ==> forall x :: x in rest ==> x.taskId != ts[0].taskId by {
          if UniqueIds(ts) {
            forall x | x in rest ensures x.taskId != ts[0].taskId {
              var j :| 1 <= j < |ts| && ts[j] == x;
            }
          }
        }
        [ts[0]] + rest
      else rest
  }

  /** Filtering by a stronger condition keeps no more rows. */
  lemma {:induction false} FilterStronger(ts: seq<Task>, p: Task -> bool, q: Task -> bool)
    requires forall x :: x in ts && p(x) ==> q(x)
    ensures |Filter(ts, p)| <= |Filter(ts, q)|
  {
    if ts != [] {
      assert forall x :: x in ts[1..] ==> x in ts;
      FilterStronger(ts[1..], p, q);
    }
  }

  /** The relation `workflow.tasks`: the tasks of one workflow, in table order. */
  function WorkflowTasks(ts: seq<Task>, workflowId: WorkflowId): (r: seq<Task>)
    ensures forall x :: x in r <==> x in ts && x.workflowId == workflowId
    ensures |r| <= |ts|
    ensures UniqueIds(ts) ==> UniqueIds(r)
  {
    Filter(ts, (t: Task) => t.workflowId == workflowId)
  }

  /** Removing one position takes exactly that element out of the multiset. */
  lemma DropOne(s: seq<Task>, k: nat)
    requires k < |s|
    ensures multiset(s) == multiset(s[..k] + s[k + 1..]) + multiset{s[k]}
  {
    assert s == s[..k] + [s[k]] + s[k + 1..];
  }

  /** Taking the first row off one side and a copy of it off the other keeps the multisets equal. */
  lemma RemoveMatching(a: seq<Task>, b: seq<Task>, k: nat)
    requires multiset(a) == multiset(b) && a != [] && k < |b| && b[k] == a[0]
    ensures multiset(a[1..]) == multiset(b[..k] + b[k + 1..])
  {
    DropOne(b, k);
    assert a == [a[0]] + a[1..];
    assert multiset(a) == multiset{a[0]} + multiset(a[1..]);
    assert multiset(a[1..]) == multiset(a) - multiset{a[0]};
    assert multiset(b[..k] + b[k + 1..]) == multiset(b) - multiset{b[k]};
  }

  /** A row taken out of a table with unique keys shares its key with none of the rest. */
  lemma RemovedKeyFresh(x: Task, rest: seq<Task>, b: seq<Task>, k: nat)
    requires UniqueIds(b) && k < |b| && b[k] == x
    requires multiset(rest) == multiset(b[..k] + b[k + 1..])
    ensures forall m :: 0 <= m < |rest| ==> x.taskId != rest[m].taskId
  {
    var b' := b[..k] + b[k + 1..];
    forall m | 0 <= m < |rest|
      ensures x.taskId != rest[m].taskId
    {
      assert rest[m] in multiset(b');
      var q :| 0 <= q < |b'| && b'[q] == rest[m];
      if q < k {
        assert b[q] == b'[q];
      } else {
        assert b[q + 1] == b'[q];
      }
    }
  }

  /** Putting a row with a new key in front keeps the keys unique. */
  lemma ConsKeepsUniqueIds(x: Task, rest: seq<Task>)
    requires UniqueIds(rest) && forall m :: 0 <= m < |rest| ==> x.taskId != rest[m].taskId
    ensures UniqueIds([x] + rest)
  {
    var a := [x] + rest;
    forall i, j | 0 <= i < j < |a|
      ensures a[i].taskId != a[j].taskId
    {
      assert a[j] == rest[j - 1];
      if i > 0 {
        assert a[i] == rest[i - 1];
      }
    }
  }

  /**
   * Two sequences holding the same rows, each as often, agree on whether keys are unique:
   * a rearrangement of a table with unique keys has unique keys.
   */
  lemma {:induction false} SameRowsKeepUniqueIds(a: seq<Task>, b: seq<Task>)
    requires multiset(a) == multiset(b)
    ensures UniqueIds(b) ==> UniqueIds(a)
    decreases |a|
  {
    if a != [] && UniqueIds(b) {
      assert a[0] in multiset(a);
      var k :| 0 <= k < |b| && b[k] == a[0];
      RemoveMatching(a, b, k);
      DropKeepsUniqueIds(b, k);
      SameRowsKeepUniqueIds(a[1..], b[..k] + b[k + 1..]);
      RemovedKeyFresh(a[0], a[1..], b, k);
      ConsKeepsUniqueIds(a[0], a[1..]);
      assert a == [a[0]] + a[1..];
    }
  }

  /** Dropping a row keeps the keys unique. */
  lemma DropKeepsUniqueIds(b: seq<Task>, k: nat)
    requires k < |b| && UniqueIds(b)
    ensures UniqueIds(b[..k] + b[k + 1..])
  {
    var b' := b[..k] + b[k + 1..];
    forall i, j | 0 <= i < j < |b'|
      ensures b'[i].taskId != b'[j].taskId
    {
      var i' := if i < k then i else i + 1;
      var j' := if j < k then j else j + 1;
      assert b'[i] == b[i'] && b'[j] == b[j'];
    }
  }

  /** `findOne({ where: { taskType, workflow: { workflowId } } })`: the first matching row. */
  function FindTask(ts: seq<Task>, taskType: string, workflowId: WorkflowId): (r: Option<Task>)
    ensures r.Some? ==> r.value in ts && r.value.taskType == taskType && r.value.workflowId == workflowId
    ensures r.None? <==> forall x :: x in ts ==> !(x.taskType == taskType && x.workflowId == workflowId)
  {
    if ts == [] then None
    else if ts[0].taskType == taskType && ts[0].workflowId == workflowId then Some(ts[0])
    else
      assert forall x :: x in ts ==> x == ts[0] || x in ts[1..];
      FindTask(ts[1..], taskType, workflowId)
  }

  function Max(a: nat, b: nat): nat { if a < b then b else a }

  class Store {
    /** The task table, in insertion order. */
    var tasks: seq<Task>
    /** The workflow table. */
    var workflows: map<WorkflowId, Workflow>
    /** Every identifier already used is below `nextId`. */
    var nextId: nat

    ghost predicate Valid()
      reads this
    {
      && UniqueIds(tasks)
      && (forall i :: 0 <= i < |tasks| ==> tasks[i].taskId < nextId)
      && (forall w :: w in workflows ==> w < nextId && workflows[w].workflowId == w)
    }

    constructor ()
      ensures Valid()
      ensures tasks == [] && workflows == map[] && nextId == 0
    {
      tasks, workflows, nextId := [], map[], 0;
    }

    /** A primary key no row has used. */
    method FreshId() returns (id: nat)
      requires Valid()
      modifies this`nextId
      ensures Valid()
      ensures id == old(nextId) && nextId == id + 1
      ensures forall i :: 0 <= i < |tasks| ==> tasks[i].taskId != id
      ensures id !in workflows
    {
      id := nextId;
      nextId := nextId + 1;
    }

    /** `taskRepository.save(t)`. */
    method SaveTask(t: Task)
      requires Valid()
      modifies this`tasks, this`nextId
      ensures Valid()
      ensures tasks == Upsert(old(tasks), t)
      ensures nextId == Max(old(nextId), t.taskId + 1)
    {
      tasks := Upsert(tasks, t);
      nextId := Max(nextId, t.taskId + 1);
    }

    /** `workflowRepository.save(w)`. */
    method SaveWorkflow(w: Workflow)
      requires Valid()
      modifies this`workflows, this`nextId
      ensures Valid()
      ensures workflows == old(workflows)[w.workflowId := w]
      ensures nextId == Max(old(nextId), w.workflowId + 1)
    {
      workflows := workflows[w.workflowId := w];
      nextId := Max(nextId, w.workflowId + 1);
    }

    /** `taskRepository.save(tasks)` on new entities: each row gets a fresh key, in list order. */
    method InsertTasks(ts: seq<Task>) returns (saved: seq<Task>)
      requires Valid()
      modifies this`tasks, this`nextId
      ensures Valid()
      ensures |saved| == |ts|
      ensures forall i :: 0 <= i < |ts| ==> saved[i] == ts[i].(taskId := old(nextId) + i)
      ensures tasks == old(tasks) + saved
      ensures nextId == old(nextId) + |ts|
    {
      saved := [];
      var i := 0;
      while i < |ts|
        invariant 0 <= i <= |ts|
        invariant |saved| == i
        invariant forall k :: 0 <= k < i ==> saved[k] == ts[k].(taskId := old(nextId) + k)
        invariant tasks == old(tasks) + saved
        invariant nextId == old(nextId) + i
        invariant Valid()
      {
        var row := ts[i].(taskId := nextId);
        saved := saved + [row];
        tasks := tasks + [row];
        nextId := nextId + 1;
        i := i + 1;
      }
    }
  }
}
