/**
 * Building a workflow from a parsed definition: the dependency map, the cycle check,
 * one Queued task per step, the pairwise sort and the renumbering of step numbers.
 */
module WorkflowFactory {
  import opened Wrappers
  import opened Entities
  import Store

  const CycleMessage := "Workflow definition contains a cycle in task dependencies."

  // ---------------------------------------------------------------------------
  // The dependency map

  /** Step `i` declares a truthy dependency for `taskType` and no later step does. */
  predicate LastDeclaration(steps: seq<Step>, taskType: string, i: int) {
    && 0 <= i < |steps|
    && steps[i].taskType == taskType && Truthy(steps[i].dependsOn)
    && forall j :: i < j < |steps| && steps[j].taskType == taskType ==> !Truthy(steps[j].dependsOn)
  }

  /**
   * The map the `forEach` fills: `map.set(step.taskType, step.dependsOn)` for every step
   * with a truthy dependency, so a later step overwrites an earlier one of the same type.
   */
  function DependencyMap(steps: seq<Step>): (m: map<string, string>)
  {
    if steps == [] then map[]
    else
      var last := steps[|steps| - 1];
      var m := DependencyMap(steps[..|steps| - 1]);
      if Truthy(last.dependsOn) then m[last.taskType := last.dependsOn.value] else m
  }

  /** The keys of the map are the task types of the steps that declare a truthy dependency. */
  lemma {:induction false} DependencyMapKey(steps: seq<Step>, k: string)
    ensures k in DependencyMap(steps) <==>
      exists i :: 0 <= i < |steps| && steps[i].taskType == k && Truthy(steps[i].dependsOn)
  {
    if steps != [] {
      var n := |steps| - 1;
      var front := steps[..n];
      DependencyMapKey(front, k);
      assert forall i :: 0 <= i < n ==> front[i] == steps[i];
      if exists i :: 0 <= i < |steps| && steps[i].taskType == k && Truthy(steps[i].dependsOn) {
        var i :| 0 <= i < |steps| && steps[i].taskType == k && Truthy(steps[i].dependsOn);
        if i < n { assert front[i].taskType == k && Truthy(front[i].dependsOn); }
      }
    }
  }

  /** Duplicate task types are not rejected: the last step that declares a dependency wins. */
  lemma {:induction false} DependencyMapLastWins(steps: seq<Step>, k: string) returns (i: int)
    requires k in DependencyMap(steps)
    ensures LastDeclaration(steps, k, i) && DependencyMap(steps)[k] == steps[i].dependsOn.value
  {
    var n := |steps| - 1;
    var front := steps[..n];
    var last := steps[n];
    if Truthy(last.dependsOn) && k == last.taskType {
      i := n;
    } else {
      i := DependencyMapLastWins(front, k);
      assert forall j :: 0 <= j < n ==> front[j] == steps[j];
    }
  }

  /** The `forEach` loop of `createWorkflowFromYAML` that fills the dependency map. */
  method BuildDependencyMap(steps: seq<Step>) returns (m: map<string, string>)
    ensures m == DependencyMap(steps)
  {
    m := map[];
    for i := 0 to |steps|
      invariant m == DependencyMap(steps[..i])
    {
      assert steps[..i + 1][..i] == steps[..i];
      if Truthy(steps[i].dependsOn) {
        m := m[steps[i].taskType := steps[i].dependsOn.value];
      }
    }
    assert steps[..|steps|] == steps;
  }

  // ---------------------------------------------------------------------------
  // Cycle detection

  /** `dependecyMap.get(t)` when truthy. */
  function Next(deps: map<string, string>, t: string): (r: Option<string>)
    ensures r.Some? ==> t in deps
  {
    if t in deps && deps[t] != "" then Some(deps[t]) else None
  }

  lemma RemovingVisitedShrinks(keys: set<string>, visited: seq<string>, t: string)
    requires t in keys && t !in visited
    ensures |keys - set x | x in visited + [t]| < |keys - set x | x in visited|
  {
    var before := keys - set x | x in visited;
    var after := keys - set x | x in visited + [t];
    assert after == before - {t};
  }

  /**
   * `detectCycle`: walk the dependency chain from `t`, pushing each name onto `visited`;
   * report a cycle as soon as the walk meets a name already visited.
   */
  function DetectCycle(t: string, deps: map<string, string>, visited: seq<string>): bool
    decreases |deps.Keys - set x | x in visited|
  {
    if t in visited then true
    else
      var pushed := visited + [t];
      match Next(deps, t)
      case None => false
      case Some(d) =>
        if d in pushed then true
        else
          RemovingVisitedShrinks(deps.Keys, visited, t);
          DetectCycle(d, deps, pushed)
  }

  /** The name reached from `t` after `n` dependency steps, if the chain is that long. */
  function Follow(deps: map<string, string>, t: string, n: nat): Option<string>
    decreases n
  {
    if n == 0 then Some(t)
    else
      match Next(deps, t)
      case None => None
      case Some(u) => Follow(deps, u, n - 1)
  }

  /** The chain from `t` stops at its `n`-th name, which has no dependency. */
  predicate EndsAt(deps: map<string, string>, t: string, n: nat) {
    Follow(deps, t, n).Some? && Follow(deps, t, n + 1).None?
  }

  /** The chain from `t` reaches a name without a dependency. */
  ghost predicate ChainEnds(deps: map<string, string>, t: string) {
    exists n: nat :: EndsAt(deps, t, n)
  }

  /** Some name leads back to itself. */
  ghost predicate Cyclic(deps: map<string, string>) {
    exists t: string, k: nat :: 1 <= k && Follow(deps, t, k) == Some(t)
  }

  lemma {:induction false} FollowAdd(deps: map<string, string>, t: string, a: nat, b: nat)
    ensures Follow(deps, t, a + b) == match Follow(deps, t, a) case None => None case Some(u) => Follow(deps, u, b)
    decreases a
  {
    if a > 0 {
      match Next(deps, t)
      case None =>
      case Some(u) => FollowAdd(deps, u, a - 1, b);
    }
  }

  lemma FollowStep(deps: map<string, string>, t: string, n: nat)
    ensures Follow(deps, t, n + 1) == match Follow(deps, t, n) case None => None case Some(u) => Next(deps, u)
  {
    FollowAdd(deps, t, n, 1);
    match Follow(deps, t, n)
    case None =>
    case Some(u) =>
      match Next(deps, u)
      case None =>
      case Some(v) => assert Follow(deps, v, 0) == Some(v);
  }

  /** A false answer is only given when the walk stopped at a name with no dependency. */
  lemma {:induction false} DetectCycleFalseEnds(t: string, deps: map<string, string>, visited: seq<string>) returns (n: nat)
    requires !DetectCycle(t, deps, visited)
    ensures EndsAt(deps, t, n)
    decreases |deps.Keys - set x | x in visited|
  {
    assert t !in visited;
    if Next(deps, t).None? {
      n := 0;
      assert Follow(deps, t, 1) == None;
    } else {
      var d := Next(deps, t).value;
      var pushed := visited + [t];
      assert d !in pushed && !DetectCycle(d, deps, pushed);
      RemovingVisitedShrinks(deps.Keys, visited, t);
      var m := DetectCycleFalseEnds(d, deps, pushed);
      n := m + 1;
      assert Follow(deps, t, m + 1) == Follow(deps, d, m);
      assert Follow(deps, t, m + 2) == Follow(deps, d, m + 1);
    }
  }

  /** `visited` holds the first `|visited|` names of the chain from `t0`, and `t` comes next. */
  predicate WalkPrefix(deps: map<string, string>, t0: string, visited: seq<string>, t: string) {
    && (forall i :: 0 <= i < |visited| ==> Follow(deps, t0, i) == Some(visited[i]))
    && Follow(deps, t0, |visited|) == Some(t)
  }

  /** A walk that comes back to a name it has already visited repeats that name. */
  lemma RevisitRepeats(deps: map<string, string>, t0: string, visited: seq<string>, t: string)
    requires WalkPrefix(deps, t0, visited, t) && t in visited
    ensures Repeats(deps, t0)
  {
    var i :| 0 <= i < |visited| && visited[i] == t;
    assert RepeatsAt(deps, t0, i, |visited|);
  }

  /** A true answer is only given when the chain from `t0` meets one of its names again. */
  lemma {:induction false} DetectCycleTrueRepeats(t0: string, t: string, deps: map<string, string>, visited: seq<string>)
    requires WalkPrefix(deps, t0, visited, t)
    requires DetectCycle(t, deps, visited)
    ensures Repeats(deps, t0)
    decreases |deps.Keys - set x | x in visited|
  {
    if t in visited {
      RevisitRepeats(deps, t0, visited, t);
    } else {
      var d := Next(deps, t).value;
      var pushed := visited + [t];
      WalkExtends(deps, t0, visited, t, d);
      if d in pushed {
        RevisitRepeats(deps, t0, pushed, d);
      } else {
        RemovingVisitedShrinks(deps.Keys, visited, t);
        DetectCycleTrueRepeats(t0, d, deps, pushed);
      }
    }
  }

  predicate RepeatsAt(deps: map<string, string>, t: string, i: nat, j: nat) {
    i < j && Follow(deps, t, i).Some? && Follow(deps, t, i) == Follow(deps, t, j)
  }

  /** The chain from `t` meets one of its names again. */
  ghost predicate Repeats(deps: map<string, string>, t: string) {
    exists i: nat, j: nat :: RepeatsAt(deps, t, i, j)
  }

  lemma WalkExtends(deps: map<string, string>, t0: string, visited: seq<string>, t: string, d: string)
    requires WalkPrefix(deps, t0, visited, t) && Next(deps, t) == Some(d)
    ensures WalkPrefix(deps, t0, visited + [t], d)
  {
    FollowStep(deps, t0, |visited|);
  }

  lemma NonePersists(deps: map<string, string>, t: string, a: nat, b: nat)
    requires a <= b && Follow(deps, t, a).None?
    ensures Follow(deps, t, b).None?
  {
    FollowAdd(deps, t, a, b - a);
  }

  /** A chain that meets a name again runs on for ever. */
  lemma {:induction false} RepeatNeverEnds(deps: map<string, string>, t: string, i: nat, j: nat, m: nat)
    requires i < j && Follow(deps, t, i).Some? && Follow(deps, t, i) == Follow(deps, t, j)
    ensures Follow(deps, t, m).Some?
    decreases m
  {
    if m <= j {
      if Follow(deps, t, m).None? {
        NonePersists(deps, t, m, j);
      }
    } else {
      var p := j - i;
      FollowAdd(deps, t, i, p);
      FollowAdd(deps, t, m - p, p);
      FollowAdd(deps, t, i, m - p - i);
      FollowAdd(deps, t, j, m - p - i);
      RepeatNeverEnds(deps, t, i, j, m - p);
    }
  }

  /** `detectCycle(t, map, [])` is true exactly when the chain from `t` never reaches a name without a dependency. */
  lemma DetectCycleCorrect(t: string, deps: map<string, string>)
    ensures DetectCycle(t, deps, []) <==> !ChainEnds(deps, t)
  {
    if DetectCycle(t, deps, []) {
      DetectCycleTrueRepeats(t, t, deps, []);
      var i: nat, j: nat :| RepeatsAt(deps, t, i, j);
      if ChainEnds(deps, t) {
        var n: nat :| EndsAt(deps, t, n);
        RepeatNeverEnds(deps, t, i, j, n + 1);
        assert false;
      }
    } else {
      var n := DetectCycleFalseEnds(t, deps, []);
    }
  }

  lemma {:induction false} Pigeonhole(s: seq<string>, names: set<string>)
    requires forall k :: 0 <= k < |s| ==> s[k] in names
    requires |s| > |names|
    ensures exists i, j :: 0 <= i < j < |s| && s[i] == s[j]
  {
    if s[0] in s[1..] {
      var j :| 0 <= j < |s[1..]| && s[1..][j] == s[0];
      assert s[0] == s[j + 1];
    } else {
      Pigeonhole(s[1..], names - {s[0]});
      var i, j :| 0 <= i < j < |s[1..]| && s[1..][i] == s[1..][j];
      assert s[i + 1] == s[j + 1];
    }
  }

  /** A chain that never ends in a finite map must close a loop. */
  lemma EndlessChainIsCyclic(deps: map<string, string>, t: string)
    requires !ChainEnds(deps, t)
    ensures Cyclic(deps)
  {
    var n := |deps.Keys|;
    forall m: nat | m <= n + 1 ensures Follow(deps, t, m).Some? {
      DefinedUpTo(deps, t, m);
    }
    var s := seq(n + 1, k requires 0 <= k < n + 1 => Follow(deps, t, k).value);
    forall k | 0 <= k < |s| ensures s[k] in deps.Keys {
      FollowStep(deps, t, k);
    }
    Pigeonhole(s, deps.Keys);
    var i, j :| 0 <= i < j < |s| && s[i] == s[j];
    FollowAdd(deps, t, i, j - i);
    assert Follow(deps, s[i], j - i) == Some(s[i]);
  }

  lemma {:induction false} DefinedUpTo(deps: map<string, string>, t: string, m: nat)
    requires !ChainEnds(deps, t)
    ensures Follow(deps, t, m).Some?
  {
    if m > 0 {
      DefinedUpTo(deps, t, m - 1);
      assert !EndsAt(deps, t, m - 1);
    }
  }

  /** A name on a loop has a chain that never ends. */
  lemma LoopNeverEnds(deps: map<string, string>, t: string, k: nat)
    requires 1 <= k && Follow(deps, t, k) == Some(t)
    ensures !ChainEnds(deps, t)
  {
    if ChainEnds(deps, t) {
      var n: nat :| EndsAt(deps, t, n);
      RepeatNeverEnds(deps, t, 0, k, n + 1);
      assert false;
    }
  }

  /**
   * `steps.filter(step => step.dependsOn).some(step => detectCycle(step.taskType, map, []))`:
   * a walk starts, with a fresh visited list, from every step that declares a dependency.
   */
  predicate HasCycle(steps: seq<Step>, deps: map<string, string>) {
    exists i :: 0 <= i < |steps| && Truthy(steps[i].dependsOn) && DetectCycle(steps[i].taskType, deps, [])
  }

  /** The definition is rejected exactly when its dependency map has a loop (direct, transitive or a self-dependency). */
  lemma HasCycleIffCyclic(steps: seq<Step>)
    ensures HasCycle(steps, DependencyMap(steps)) <==> Cyclic(DependencyMap(steps))
  {
    var deps := DependencyMap(steps);
    if HasCycle(steps, deps) {
      var i :| 0 <= i < |steps| && Truthy(steps[i].dependsOn) && DetectCycle(steps[i].taskType, deps, []);
      DetectCycleCorrect(steps[i].taskType, deps);
      EndlessChainIsCyclic(deps, steps[i].taskType);
    }
    if Cyclic(deps) {
      var t: string, k: nat :| 1 <= k && Follow(deps, t, k) == Some(t);
      assert Next(deps, t).Some?;
      DependencyMapKey(steps, t);
      var i :| 0 <= i < |steps| && steps[i].taskType == t && Truthy(steps[i].dependsOn);
      LoopNeverEnds(deps, t, k);
      DetectCycleCorrect(t, deps);
    }
  }

  /** A self-dependency that is the last declaration for its task type is rejected. */
  lemma SelfDependencyRejected(steps: seq<Step>, i: int)
    requires 0 <= i < |steps|
    requires LastDeclaration(steps, steps[i].taskType, i) && steps[i].dependsOn == Some(steps[i].taskType)
    ensures HasCycle(steps, DependencyMap(steps))
  {
    var t := steps[i].taskType;
    var deps := DependencyMap(steps);
    DependencyMapKey(steps, t);
    var j := DependencyMapLastWins(steps, t);
    assert j == i;
    assert Follow(deps, t, 1) == Some(t);
    HasCycleIffCyclic(steps);
  }

  /** The direct cycle a -> b -> a and the transitive cycle a -> b -> c -> a are both rejected. */
  lemma TwoAndThreeCyclesRejected()
    ensures HasCycle([Step("a", 1, Some("b")), Step("b", 2, Some("a"))],
                     DependencyMap([Step("a", 1, Some("b")), Step("b", 2, Some("a"))]))
    ensures HasCycle([Step("a", 1, Some("b")), Step("b", 2, Some("c")), Step("c", 3, Some("a"))],
                     DependencyMap([Step("a", 1, Some("b")), Step("b", 2, Some("c")), Step("c", 3, Some("a"))]))
  {
    var two := [Step("a", 1, Some("b")), Step("b", 2, Some("a"))];
    assert two[..1] == [Step("a", 1, Some("b"))];
    assert DependencyMap(two) == map["a" := "b", "b" := "a"];
    assert Follow(DependencyMap(two), "a", 2) == Some("a");
    HasCycleIffCyclic(two);
    var three := [Step("a", 1, Some("b")), Step("b", 2, Some("c")), Step("c", 3, Some("a"))];
    assert three[..2] == [Step("a", 1, Some("b")), Step("b", 2, Some("c"))];
    assert three[..2][..1] == [Step("a", 1, Some("b"))];
    assert DependencyMap(three) == map["a" := "b", "b" := "c", "c" := "a"];
    assert Follow(DependencyMap(three), "a", 3) == Some("a");
    HasCycleIffCyclic(three);
  }

  /** A chain that reaches a name with no map entry is accepted: `fetch` has no dependency, `area` depends on it. */
  lemma DanglingChainAccepted()
    ensures !HasCycle([Step("fetch", 1, None), Step("area", 2, Some("fetch"))],
                      DependencyMap([Step("fetch", 1, None), Step("area", 2, Some("fetch"))]))
  {
    var steps := [Step("fetch", 1, None), Step("area", 2, Some("fetch"))];
    assert steps[..1] == [Step("fetch", 1, None)];
    assert DependencyMap([Step("fetch", 1, None)]) == map[];
    var deps := DependencyMap(steps);
    assert deps == map["area" := "fetch"];
    assert !DetectCycle("fetch", deps, ["area"]);
    assert !DetectCycle("area", deps, []);
  }

  // ---------------------------------------------------------------------------
  // Tasks, the sort comparator and the renumbering

  /** The entity `steps.map(...)` builds for one step: Queued, with the shared client and document. */
  function Draft(step: Step, workflowId: WorkflowId, clientId: string, geoJson: string): Task {
    Task(0, workflowId, clientId, geoJson, Queued, None, None, step.taskType, step.stepNumber,
         if Truthy(step.dependsOn) then step.dependsOn else None)
  }

  function Drafts(steps: seq<Step>, workflowId: WorkflowId, clientId: string, geoJson: string): (ts: seq<Task>)
    ensures |ts| == |steps|
    ensures forall i :: 0 <= i < |steps| ==> ts[i] == Draft(steps[i], workflowId, clientId, geoJson)
  {
    seq(|steps|, i requires 0 <= i < |steps| => Draft(steps[i], workflowId, clientId, geoJson))
  }

  /** The comparator handed to `tasks.sort`. */
  function Compare(a: Task, b: Task): int {
    if a.dependsOn == Some(b.taskType) then 1
    else if b.dependsOn == Some(a.taskType) then -1
    else a.stepNumber - b.stepNumber
  }

  /** Unless two tasks depend on each other, swapping the arguments flips the sign. */
  lemma CompareAntisymmetric(a: Task, b: Task)
    requires !(a.dependsOn == Some(b.taskType) && b.dependsOn == Some(a.taskType))
    ensures Compare(a, b) > 0 <==> Compare(b, a) < 0
    ensures Compare(a, b) == 0 <==> Compare(b, a) == 0
  {
  }

  /** A dependent sorts after its dependency, whatever their step numbers. */
  lemma CompareDependencyFirst(a: Task, b: Task)
    requires a.dependsOn == Some(b.taskType)
    ensures Compare(a, b) > 0
    ensures b.dependsOn != Some(a.taskType) ==> Compare(b, a) < 0
  {
  }

  /**
   * The comparator is not transitive: a (step 1, depends on c) < b (step 2) < c (step 3),
   * yet a > c. So the order `sort` produces is not determined by the comparator.
   */
  lemma CompareNotTransitive()
    ensures exists a: Task, b: Task, c: Task :: Compare(a, b) < 0 && Compare(b, c) < 0 && Compare(a, c) > 0
  {
    var a := Task(0, 0, "", "", Queued, None, None, "a", 1, Some("c"));
    var b := Task(0, 0, "", "", Queued, None, None, "b", 2, None);
    var c := Task(0, 0, "", "", Queued, None, None, "c", 3, None);
    assert Compare(a, b) < 0 && Compare(b, c) < 0 && Compare(a, c) > 0;
  }

  /** `perm` lists every index below `n` exactly once. */
  predicate IsPermutation(perm: seq<nat>, n: nat) {
    && |perm| == n
    && (forall i :: 0 <= i < n ==> perm[i] < n)
    && (forall i, j :: 0 <= i < j < n ==> perm[i] != perm[j])
    && (forall k :: 0 <= k < n ==> k in perm)
  }

  /** Dropping the position that holds the largest index leaves a permutation of the smaller ones. */
  lemma DropLargest(perm: seq<nat>, n: nat, k: nat)
    requires IsPermutation(perm, n) && k < n && perm[k] == n - 1
    ensures IsPermutation(perm[..k] + perm[k + 1..], n - 1)
  {
    var perm' := perm[..k] + perm[k + 1..];
    forall i | 0 <= i < n - 1
      ensures perm'[i] == (if i < k then perm[i] else perm[i + 1])
    {
    }
    forall m | 0 <= m < n - 1
      ensures m in perm'
    {
      assert m in perm;
      var p :| 0 <= p < n && perm[p] == m;
      if p < k {
        assert perm'[p] == m;
      } else {
        assert perm'[p - 1] == m;
      }
    }
  }

  /** With the largest index's position dropped, the rest is a rearrangement of the shorter prefix. */
  lemma DropRearranged(ts: seq<Task>, r: seq<Task>, perm: seq<nat>, k: nat, ts': seq<Task>, r': seq<Task>, perm': seq<nat>)
    requires IsPermutation(perm, |ts|) && |r| == |ts| && k < |ts| && perm[k] == |ts| - 1
    requires forall i :: 0 <= i < |ts| ==> r[i] == ts[perm[i]]
    requires ts' == ts[..|ts| - 1] && r' == r[..k] + r[k + 1..] && perm' == perm[..k] + perm[k + 1..]
    ensures IsPermutation(perm', |ts'|) && |r'| == |ts'|
    ensures forall i :: 0 <= i < |ts'| ==> r'[i] == ts'[perm'[i]]
  {
    var n := |ts|;
    DropLargest(perm, n, k);
    forall i | 0 <= i < n - 1
      ensures r'[i] == ts'[perm'[i]]
    {
      if i < k {
        assert r'[i] == r[i] && perm'[i] == perm[i];
      } else {
        assert r'[i] == r[i + 1] && perm'[i] == perm[i + 1];
      }
    }
  }

  /** Putting the same element back into both of two equal multisets keeps them equal. */
  lemma PutBackOne(ts: seq<Task>, r: seq<Task>, k: nat, ts': seq<Task>, r': seq<Task>)
    requires 0 < |ts| && k < |r| && r[k] == ts[|ts| - 1]
    requires ts' == ts[..|ts| - 1] && r' == r[..k] + r[k + 1..]
    requires multiset(r') == multiset(ts')
    ensures multiset(r) == multiset(ts)
  {
    Store.DropOne(r, k);
    Store.DropOne(ts, |ts| - 1);
    assert ts[..|ts| - 1] + ts[|ts|..] == ts';
  }

  /**
   * A sequence that places at each position `i` the element at `perm[i]` holds the same
   * elements as the original, each as often.
   */
  lemma {:induction false} RearrangementKeepsElements(ts: seq<Task>, r: seq<Task>, perm: seq<nat>)
    requires IsPermutation(perm, |ts|) && |r| == |ts|
    requires forall i :: 0 <= i < |ts| ==> r[i] == ts[perm[i]]
    ensures multiset(r) == multiset(ts)
    decreases |ts|
  {
    var n := |ts|;
    if n > 0 {
      assert n - 1 in perm;
      var k :| 0 <= k < n && perm[k] == n - 1;
      var ts', r', perm' := ts[..n - 1], r[..k] + r[k + 1..], perm[..k] + perm[k + 1..];
      DropRearranged(ts, r, perm, k, ts', r', perm');
      RearrangementKeepsElements(ts', r', perm');
      PutBackOne(ts, r, k, ts', r');
    }
  }

  /** The rearrangement `sort` leaves behind: position `i` holds the element that was at `perm[i]`. */
  function Permuted(ts: seq<Task>, perm: seq<nat>): (r: seq<Task>)
    requires IsPermutation(perm, |ts|)
    ensures |r| == |ts|
    ensures forall i :: 0 <= i < |ts| ==> r[i] == ts[perm[i]]
    ensures multiset(r) == multiset(ts)
  {
    var r := seq(|ts|, i requires 0 <= i < |ts| => ts[perm[i]]);
    RearrangementKeepsElements(ts, r, perm);
    r
  }

  /** `tasks.map((task, index) => { task.stepNumber = index + 1; ... })`. */
  method Renumber(ts: seq<Task>) returns (r: seq<Task>)
    ensures |r| == |ts|
    ensures forall i :: 0 <= i < |r| ==> r[i].stepNumber == i + 1
    ensures forall i :: 0 <= i < |r| ==> r[i].(stepNumber := ts[i].stepNumber) == ts[i]
  {
    r := ts;
    for i := 0 to |r|
      invariant |r| == |ts|
      invariant forall k :: 0 <= k < i ==> r[k] == ts[k].(stepNumber := k + 1)
      invariant forall k :: i <= k < |r| ==> r[k] == ts[k]
    {
      r := r[i := r[i].(stepNumber := i + 1)];
    }
  }

  /** The tasks `createWorkflowFromYAML` saves, before they get their ids: drafted, sorted, renumbered. */
  method PlanTasks(steps: seq<Step>, workflowId: WorkflowId, clientId: string, geoJson: string, sortOrder: seq<nat>)
    returns (tasks: seq<Task>)
    requires IsPermutation(sortOrder, |steps|)
    ensures |tasks| == |steps|
    ensures forall i :: 0 <= i < |steps| ==>
      tasks[i] == Draft(steps[sortOrder[i]], workflowId, clientId, geoJson).(stepNumber := i + 1)
  {
    tasks := Drafts(steps, workflowId, clientId, geoJson);
    tasks := Permuted(tasks, sortOrder);
    tasks := Renumber(tasks);
  }

  /**
   * Step `j` is saved at the position `i` that `sort` moved it to, with that position's
   * id (`usedId + 1 + i`, the ids after `usedId`) and step number (`i + 1`).
   */
  ghost predicate StepSaved(tasks: seq<Task>, offset: nat, steps: seq<Step>, perm: seq<nat>,
                            workflowId: WorkflowId, clientId: string, geoJson: string, usedId: nat, j: nat)
    requires j < |steps| && |perm| == |steps| && offset + |steps| <= |tasks|
  {
    exists i :: 0 <= i < |steps| && perm[i] == j &&
      tasks[offset + i] == Draft(steps[j], workflowId, clientId, geoJson).(taskId := usedId + 1 + i, stepNumber := i + 1)
  }

  /**
   * Every step of the definition is saved as exactly one task of the plan: some position
   * holds it, and no other position was filled from step `j`, since `perm` lists each
   * index once.
   */
  lemma PlanCoversSteps(tasks: seq<Task>, offset: nat, steps: seq<Step>, perm: seq<nat>,
                        workflowId: WorkflowId, clientId: string, geoJson: string, usedId: nat, j: nat)
    returns (i: nat)
    requires IsPermutation(perm, |steps|) && offset + |steps| <= |tasks| && j < |steps|
    requires forall k :: 0 <= k < |steps| ==>
      tasks[offset + k] == Draft(steps[perm[k]], workflowId, clientId, geoJson).(taskId := usedId + 1 + k, stepNumber := k + 1)
    ensures i < |steps| && perm[i] == j
    ensures tasks[offset + i] == Draft(steps[j], workflowId, clientId, geoJson).(taskId := usedId + 1 + i, stepNumber := i + 1)
    ensures forall k :: 0 <= k < |steps| && k != i ==> perm[k] != j
    ensures StepSaved(tasks, offset, steps, perm, workflowId, clientId, geoJson, usedId, j)
  {
    assert j in perm;
    i :| 0 <= i < |steps| && perm[i] == j;
    assert tasks[offset + i] == Draft(steps[perm[i]], workflowId, clientId, geoJson).(taskId := usedId + 1 + i, stepNumber := i + 1);
  }

  /**
   * The task table after the plan was appended with the ids after `usedId`: the old rows
   * are kept, and every step is saved at the position `sort` moved it to.
   */
  lemma SavedPlan(all: seq<Task>, before: seq<Task>, saved: seq<Task>, plan: seq<Task>, steps: seq<Step>,
                  sortOrder: seq<nat>, workflowId: WorkflowId, clientId: string, geoJson: string, usedId: nat)
    requires IsPermutation(sortOrder, |steps|)
    requires all == before + saved && |saved| == |plan| == |steps|
    requires forall i :: 0 <= i < |plan| ==> saved[i] == plan[i].(taskId := usedId + 1 + i)
    requires forall i :: 0 <= i < |steps| ==>
      plan[i] == Draft(steps[sortOrder[i]], workflowId, clientId, geoJson).(stepNumber := i + 1)
    ensures |all| == |before| + |steps| && all[..|before|] == before
    ensures forall i :: 0 <= i < |steps| ==>
      all[|before| + i] == Draft(steps[sortOrder[i]], workflowId, clientId, geoJson).(taskId := usedId + 1 + i, stepNumber := i + 1)
    ensures forall j :: 0 <= j < |steps| ==>
      StepSaved(all, |before|, steps, sortOrder, workflowId, clientId, geoJson, usedId, j)
  {
    assert all[..|before|] == before;
    forall i | 0 <= i < |steps|
      ensures all[|before| + i] ==
        Draft(steps[sortOrder[i]], workflowId, clientId, geoJson).(taskId := usedId + 1 + i, stepNumber := i + 1)
    {
      assert all[|before| + i] == saved[i];
    }
    forall j | 0 <= j < |steps|
      ensures StepSaved(all, |before|, steps, sortOrder, workflowId, clientId, geoJson, usedId, j)
    {
      var i := PlanCoversSteps(all, |before|, steps, sortOrder, workflowId, clientId, geoJson, usedId, j);
    }
  }

  /**
   * `createWorkflowFromYAML` after the file has been read: reject a cyclic definition
   * before anything is saved; otherwise save a workflow in status Initial, then one
   * Queued task per step in the order `sortOrder` chosen by `sort`, numbered 1..N.
   */
  method CreateWorkflow(store: Store.Store, steps: seq<Step>, clientId: string, geoJson: string, sortOrder: seq<nat>)
    returns (r: Result<Workflow, string>)
    requires store.Valid()
    requires IsPermutation(sortOrder, |steps|)
    modifies store
    ensures store.Valid()
    ensures r.Err? <==> HasCycle(steps, DependencyMap(steps))
    ensures r.Err? ==> r.error == CycleMessage
    ensures r.Err? ==> store.tasks == old(store.tasks) && store.workflows == old(store.workflows)
    ensures r.Err? ==> store.nextId == old(store.nextId)
    ensures r.Ok? ==> r.value == Workflow(old(store.nextId), clientId, Initial, None)
    ensures r.Ok? ==> r.value.workflowId !in old(store.workflows)
    ensures r.Ok? ==> store.workflows == old(store.workflows)[r.value.workflowId := r.value]
    ensures r.Ok? ==> |store.tasks| == |old(store.tasks)| + |steps|
    ensures r.Ok? ==> store.tasks[..|old(store.tasks)|] == old(store.tasks)
    ensures r.Ok? ==> forall i :: 0 <= i < |steps| ==>
      store.tasks[|old(store.tasks)| + i] ==
        Draft(steps[sortOrder[i]], r.value.workflowId, clientId, geoJson).(taskId := old(store.nextId) + 1 + i, stepNumber := i + 1)
    ensures r.Ok? ==> forall j :: 0 <= j < |steps| ==>
      StepSaved(store.tasks, |old(store.tasks)|, steps, sortOrder, r.value.workflowId, clientId, geoJson, old(store.nextId), j)
  {
    var deps := BuildDependencyMap(steps);
    if HasCycle(steps, deps) {
      return Err(CycleMessage);
    }
    var id := store.FreshId();
    var workflow := Workflow(id, clientId, Initial, None);
    store.SaveWorkflow(workflow);
    var tasks := PlanTasks(steps, id, clientId, geoJson, sortOrder);
    ghost var before := store.tasks;
    var saved := store.InsertTasks(tasks);
    SavedPlan(store.tasks, before, saved, tasks, steps, sortOrder, id, clientId, geoJson, id);
    r := Ok(workflow);
  }
}
