/** Startup reconciliation: merging container metadata with the runtime's task snapshots. */
module Reconciliation {
  import opened Bytes
  import opened Domain
  import opened Ordering

  datatype TaskState =
    | TaskCreated
    | TaskRunning
    | TaskPaused
    | TaskRestarting
    | TaskStopped
    | TaskExited
    | TaskDead
    | Unsupported(text: string)

  datatype TaskSnapshot = TaskSnapshot(
    id: ContainerID,
    containerID: ContainerID,
    status: TaskState,
    exitCode: int,
    oomKilled: bool,
    error: string,
    startedAt: Time,
    finishedAt: Time)

  datatype ReconcileResult = ReconcileResult(
    containers: seq<Container>,
    stale: seq<ContainerID>,
    cleanup: seq<ContainerID>)

  datatype ReconcileError = EmptyMetadataIdentity | DuplicateMetadata | DuplicateTask | InvalidTask

  datatype Reconciled = Merged(result: ReconcileResult) | Rejected(error: ReconcileError)

  /** The container a task belongs to; None when its IDs disagree or are both empty. */
  function TaskIdentity(t: TaskSnapshot): Option<ContainerID> {
    if t.containerID != "" && t.id != "" && t.containerID != t.id then None
    else if t.containerID != "" then Some(t.containerID)
    else if t.id != "" then Some(t.id)
    else None
  }

  function StateOf(s: TaskState): Option<ContainerState> {
    match s
    case TaskCreated => Some(Created)
    case TaskRunning => Some(Running)
    case TaskPaused => Some(Paused)
    case TaskRestarting => Some(Restarting)
    case TaskStopped => Some(Exited)
    case TaskExited => Some(Exited)
    case TaskDead => Some(Dead)
    case Unsupported(_) => None
  }

  /** The container with a task's state; None for an unsupported status. */
  function ApplyTask(c: Container, t: TaskSnapshot): Option<Container> {
    var state := StateOf(t.status);
    if state.None? then None
    else Some(c.(exitCode := t.exitCode, oomKilled := t.oomKilled, error := t.error, startedAt := t.startedAt,
                 finishedAt := t.finishedAt,
                 updatedAt := if t.finishedAt != 0 then t.finishedAt else c.updatedAt,
                 state := state.value, dead := t.status == TaskDead))
  }

  function MarkStale(c: Container): Container {
    c.(state := Exited, dead := false)
  }

  /** A task belongs to a container if each of its IDs is that container's or empty, and not both are empty. */
  lemma IdentityMeaning(t: TaskSnapshot, id: ContainerID)
    ensures TaskIdentity(t) == Some(id) <==>
              && id != "" && t.containerID in {id, ""} && t.id in {id, ""}
              && (t.containerID == id || t.id == id)
  {
  }

  /** A merged container takes over what the task reports and keeps everything else. */
  ghost predicate TakesOver(c: Container, t: TaskSnapshot, m: Container) {
    && m.exitCode == t.exitCode && m.oomKilled == t.oomKilled && m.error == t.error
    && m.startedAt == t.startedAt && m.finishedAt == t.finishedAt
    && m.updatedAt == (if t.finishedAt == 0 then c.updatedAt else t.finishedAt)
    && (m.dead <==> t.status == TaskDead)
    && (m.state == Created <==> t.status == TaskCreated)
    && (m.state == Running <==> t.status == TaskRunning)
    && (m.state == Paused <==> t.status == TaskPaused)
    && (m.state == Restarting <==> t.status == TaskRestarting)
    && (m.state == Exited <==> t.status == TaskStopped || t.status == TaskExited)
    && (m.state == Dead <==> t.status == TaskDead)
    && m.id == c.id && m.name == c.name && m.portBindings == c.portBindings && m.networks == c.networks
  }

  lemma MergedMeaning(c: Container, t: TaskSnapshot)
    ensures MergedWith(c, Some(t)).Some? <==> !t.status.Unsupported?
    ensures MergedWith(c, Some(t)).Some? ==> TakesOver(c, t, MergedWith(c, Some(t)).value)
  {
  }

  /** A stale container is exited and not dead, and keeps everything else; both image names are completed. */
  lemma StaleFields(c: Container)
    ensures MergedWith(c, None).Some?
    ensures var m := MergedWith(c, None).value;
      && m == c.(state := Exited, dead := false, image := m.image, imageReference := m.imageReference)
      && m.image == (if c.image != "" then c.image else c.imageReference)
      && m.imageReference == (if c.imageReference != "" then c.imageReference else c.image)
  {
  }

  // ---------------------------------------------------------------------------------------------
  // What reconciliation means
  // ---------------------------------------------------------------------------------------------

  /** The task of a container. */
  ghost function TaskFor(tasks: seq<TaskSnapshot>, id: ContainerID): Option<TaskSnapshot> {
    if tasks == [] then None
    else
      var last := tasks[|tasks| - 1];
      if TaskIdentity(last) == Some(id) then Some(last) else TaskFor(tasks[..|tasks| - 1], id)
  }

  ghost predicate DistinctMetadata(metadata: seq<Container>) {
    && (forall i | 0 <= i < |metadata| :: metadata[i].id != "")
    && (forall i, j | 0 <= i < j < |metadata| :: metadata[i].id != metadata[j].id)
  }

  ghost predicate DistinctTasks(tasks: seq<TaskSnapshot>) {
    && (forall i | 0 <= i < |tasks| :: TaskIdentity(tasks[i]).Some?)
    && (forall i, j | 0 <= i < j < |tasks| :: TaskIdentity(tasks[i]) != TaskIdentity(tasks[j]))
  }

  /** One container after reconciliation; None when its task has an unsupported status. */
  ghost function MergedWith(c: Container, t: Option<TaskSnapshot>): Option<Container> {
    var merged := if t.None? then Some(MarkStale(c)) else ApplyTask(c, t.value);
    if merged.None? then None else Some(FillImages(merged.value))
  }

  ghost predicate Reconcilable(metadata: seq<Container>, tasks: seq<TaskSnapshot>) {
    && DistinctMetadata(metadata) && DistinctTasks(tasks)
    && forall i | 0 <= i < |metadata| :: MergedWith(metadata[i], TaskFor(tasks, metadata[i].id)).Some?
  }

  ghost function StaleIds(metadata: seq<Container>, tasks: seq<TaskSnapshot>): seq<ContainerID> {
    if metadata == [] then []
    else
      var last := metadata[|metadata| - 1];
      StaleIds(metadata[..|metadata| - 1], tasks) + if TaskFor(tasks, last.id).None? then [last.id] else []
  }

  ghost function Ids(metadata: seq<Container>): set<ContainerID> {
    set i | 0 <= i < |metadata| :: metadata[i].id
  }

  /**
   A reconciliation: the containers keep their order, each merged with its task or marked stale; the stale
   ones are listed in order; cleanup lists, in strictly ascending order, the tasks without a container.
   */
  ghost predicate IsReconciliation(metadata: seq<Container>, tasks: seq<TaskSnapshot>, r: ReconcileResult) {
    && AllMerged(metadata, tasks, r.containers)
    && r.stale == StaleIds(metadata, tasks)
    && StrictlySorted(r.cleanup)
    && (forall id :: id in r.cleanup <==> TaskFor(tasks, id).Some? && id !in Ids(metadata))
  }

  // ---------------------------------------------------------------------------------------------
  // The merge
  // ---------------------------------------------------------------------------------------------

  /** `m` holds the task of every container that has one. */
  ghost predicate Indexes(m: map<ContainerID, TaskSnapshot>, tasks: seq<TaskSnapshot>) {
    forall id :: id in m <==> TaskFor(tasks, id).Some?
  }

  /** The stored snapshots carry their identity; nothing else of them differs. */
  ghost predicate Stores(m: map<ContainerID, TaskSnapshot>, tasks: seq<TaskSnapshot>) {
    forall id <- m :: TaskFor(tasks, id).Some? && m[id] == TaskFor(tasks, id).value.(containerID := id)
  }

  lemma {:induction false} TaskForMeaning(tasks: seq<TaskSnapshot>, id: ContainerID)
    ensures TaskFor(tasks, id).None? <==> forall t <- tasks :: TaskIdentity(t) != Some(id)
    ensures TaskFor(tasks, id).Some? ==>
              TaskFor(tasks, id).value in tasks && TaskIdentity(TaskFor(tasks, id).value) == Some(id)
  {
    if tasks != [] {
      var n := |tasks| - 1;
      TaskForMeaning(tasks[..n], id);
      assert tasks == tasks[..n] + [tasks[n]];
    }
  }

  /** Why reconciliation is refused. */
  ghost predicate IsReason(metadata: seq<Container>, tasks: seq<TaskSnapshot>, e: ReconcileError) {
    match e
    case EmptyMetadataIdentity => exists c <- metadata :: c.id == ""
    case DuplicateMetadata => exists i, j | 0 <= i < j < |metadata| :: metadata[i].id == metadata[j].id
    case DuplicateTask => exists i, j | 0 <= i < j < |tasks| :: TaskIdentity(tasks[i]) == TaskIdentity(tasks[j])
    case InvalidTask =>
      || (exists t <- tasks :: TaskIdentity(t).None?)
      || (exists c, t | c in metadata && t in tasks :: TaskIdentity(t) == Some(c.id) && t.status.Unsupported?)
  }

  method CheckMetadata(metadata: seq<Container>) returns (err: Option<ReconcileError>)
    ensures err.None? <==> DistinctMetadata(metadata)
    ensures err.Some? ==> err.value in {EmptyMetadataIdentity, DuplicateMetadata} && IsReason(metadata, [], err.value)
  {
    var seen: map<ContainerID, Container> := map[];
    var k := 0;
    while k < |metadata|
      invariant 0 <= k <= |metadata| && DistinctMetadata(metadata[..k])
      invariant forall id :: id in seen <==> exists i | 0 <= i < k :: metadata[i].id == id
    {
      if metadata[k].id == "" {
        return Some(EmptyMetadataIdentity);
      }
      if metadata[k].id in seen {
        return Some(DuplicateMetadata);
      }
      seen := seen[metadata[k].id := metadata[k]];
      k := k + 1;
    }
    assert metadata[..k] == metadata;
    return None;
  }

  method IndexTasks(tasks: seq<TaskSnapshot>) returns (m: map<ContainerID, TaskSnapshot>, err: Option<ReconcileError>)
    ensures err.None? <==> DistinctTasks(tasks)
    ensures err.None? ==> Indexes(m, tasks) && Stores(m, tasks)
    ensures err.Some? ==> err.value in {DuplicateTask, InvalidTask} && IsReason([], tasks, err.value)
  {
    m := map[];
    var k := 0;
    while k < |tasks|
      invariant 0 <= k <= |tasks| && DistinctTasks(tasks[..k])
      invariant Indexes(m, tasks[..k]) && Stores(m, tasks[..k])
    {
      var identity := TaskIdentity(tasks[k]);
      if identity.None? {
        return m, Some(InvalidTask);
      }
      if identity.value in m {
        TaskForMeaning(tasks[..k], identity.value);
        Duplicate(tasks, k);
        return m, Some(DuplicateTask);
      }
      DistinctSnoc(tasks, k, identity.value);
      IndexSnoc(tasks, k, identity.value, m);
      m := m[identity.value := tasks[k].(containerID := identity.value)];
      k := k + 1;
    }
    assert tasks[..k] == tasks;
    return m, None;
  }

  lemma TaskForSnoc(tasks: seq<TaskSnapshot>, k: nat, id: ContainerID)
    requires k < |tasks|
    ensures TaskFor(tasks[..k + 1], id)
         == if TaskIdentity(tasks[k]) == Some(id) then Some(tasks[k]) else TaskFor(tasks[..k], id)
  {
    assert tasks[..k + 1][..k] == tasks[..k];
  }

  lemma DistinctSnoc(tasks: seq<TaskSnapshot>, k: nat, id: ContainerID)
    requires k < |tasks| && DistinctTasks(tasks[..k])
    requires TaskIdentity(tasks[k]) == Some(id) && TaskFor(tasks[..k], id).None?
    ensures DistinctTasks(tasks[..k + 1])
  {
    TaskForMeaning(tasks[..k], id);
    forall i | 0 <= i < k
      ensures TaskIdentity(tasks[i]) != Some(id)
    {
      assert tasks[..k][i] in tasks[..k];
    }
  }

  lemma IndexSnoc(tasks: seq<TaskSnapshot>, k: nat, id: ContainerID, m: map<ContainerID, TaskSnapshot>)
    requires k < |tasks| && TaskIdentity(tasks[k]) == Some(id)
    requires Indexes(m, tasks[..k]) && Stores(m, tasks[..k])
    ensures var m' := m[id := tasks[k].(containerID := id)];
      Indexes(m', tasks[..k + 1]) && Stores(m', tasks[..k + 1])
  {
    forall i
      ensures TaskFor(tasks[..k + 1], i) == if i == id then Some(tasks[k]) else TaskFor(tasks[..k], i)
    {
      TaskForSnoc(tasks, k, i);
    }
  }

  lemma Duplicate(tasks: seq<TaskSnapshot>, k: nat)
    requires k < |tasks| && TaskIdentity(tasks[k]).Some?
    requires exists t <- tasks[..k] :: TaskIdentity(t) == TaskIdentity(tasks[k])
    ensures !DistinctTasks(tasks) && IsReason([], tasks, DuplicateTask)
  {
    var t :| t in tasks[..k] && TaskIdentity(t) == TaskIdentity(tasks[k]);
    var i :| 0 <= i < k && tasks[..k][i] == t;
    assert TaskIdentity(tasks[i]) == TaskIdentity(tasks[k]);
  }

  method Reconcile(metadata: seq<Container>, tasks: seq<TaskSnapshot>) returns (r: Reconciled)
    ensures r.Merged? <==> Reconcilable(metadata, tasks)
    ensures r.Rejected? ==> IsReason(metadata, tasks, r.error)
    ensures r.Merged? ==> IsReconciliation(metadata, tasks, r.result)
  {
    var bad := CheckMetadata(metadata);
    if bad.Some? {
      return Rejected(bad.value);
    }
    var tasksByID;
    tasksByID, bad := IndexTasks(tasks);
    if bad.Some? {
      return Rejected(bad.value);
    }
    r := MergeAll(metadata, tasks, tasksByID);
  }

  /** The merging loop, which deletes each task it uses. */
  method MergeAll(metadata: seq<Container>, ghost tasks: seq<TaskSnapshot>, tasksByID: map<ContainerID, TaskSnapshot>)
    returns (r: Reconciled)
    requires DistinctMetadata(metadata) && DistinctTasks(tasks)
    requires Indexes(tasksByID, tasks) && Stores(tasksByID, tasks)
    ensures r.Merged? <==> Reconcilable(metadata, tasks)
    ensures r.Rejected? ==> r.error == InvalidTask && IsReason(metadata, tasks, InvalidTask)
    ensures r.Merged? ==> IsReconciliation(metadata, tasks, r.result)
  {
    var left := tasksByID;
    var containers, stale := [], [];
    var k := 0;
    while k < |metadata|
      invariant 0 <= k <= |metadata|
      invariant left == tasksByID - Ids(metadata[..k])
      invariant AllMerged(metadata[..k], tasks, containers)
      invariant stale == StaleIds(metadata[..k], tasks)
    {
      var id := metadata[k].id;
      MergeStep(metadata, k);
      var merged := MergeOne(metadata[k], left, tasks, tasksByID);
      if merged.None? {
        UnsupportedReason(metadata, tasks, k);
        return Rejected(InvalidTask);
      }
      StaleSnoc(metadata, k, tasks);
      if id !in left {
        stale := stale + [id];
      }
      LeftStep(tasksByID, metadata, k);
      left := left - {id};
      MergedSnoc(metadata, k, tasks, containers, merged.value);
      containers := containers + [merged.value];
      k := k + 1;
    }
    assert metadata[..k] == metadata;
    AllReconcilable(metadata, tasks, containers);
    LeftIsCleanup(metadata, tasks, tasksByID);
    var cleanup := Sorted(left.Keys);
    r := Merged(ReconcileResult(containers, stale, cleanup));
  }

  ghost predicate AllMerged(metadata: seq<Container>, tasks: seq<TaskSnapshot>, containers: seq<Container>) {
    && |containers| == |metadata|
    && forall i | 0 <= i < |metadata| ::
         MergedWith(metadata[i], TaskFor(tasks, metadata[i].id)) == Some(containers[i])
  }

  lemma AllReconcilable(metadata: seq<Container>, tasks: seq<TaskSnapshot>, containers: seq<Container>)
    requires DistinctMetadata(metadata) && DistinctTasks(tasks) && AllMerged(metadata, tasks, containers)
    ensures Reconcilable(metadata, tasks)
  {
  }

  lemma StaleSnoc(metadata: seq<Container>, k: nat, tasks: seq<TaskSnapshot>)
    requires k < |metadata|
    ensures StaleIds(metadata[..k + 1], tasks)
         == StaleIds(metadata[..k], tasks) + if TaskFor(tasks, metadata[k].id).None? then [metadata[k].id] else []
  {
    assert metadata[..k + 1][..k] == metadata[..k];
  }

  lemma UnsupportedReason(metadata: seq<Container>, tasks: seq<TaskSnapshot>, k: nat)
    requires k < |metadata| && MergedWith(metadata[k], TaskFor(tasks, metadata[k].id)).None?
    ensures IsReason(metadata, tasks, InvalidTask)
  {
    TaskForMeaning(tasks, metadata[k].id);
    if TaskFor(tasks, metadata[k].id).None? {
      StaleFields(metadata[k]);
    } else {
      var t := TaskFor(tasks, metadata[k].id).value;
      MergedMeaning(metadata[k], t);
      assert metadata[k] in metadata && t in tasks && TaskIdentity(t) == Some(metadata[k].id);
    }
  }

  lemma LeftStep(m: map<ContainerID, TaskSnapshot>, metadata: seq<Container>, k: nat)
    requires k < |metadata| && Ids(metadata[..k + 1]) == Ids(metadata[..k]) + {metadata[k].id}
    ensures m - Ids(metadata[..k]) - {metadata[k].id} == m - Ids(metadata[..k + 1])
  {
  }

  /** What no container used is what cleanup must list. */
  lemma LeftIsCleanup(metadata: seq<Container>, tasks: seq<TaskSnapshot>, m: map<ContainerID, TaskSnapshot>)
    requires Indexes(m, tasks)
    ensures forall id :: id in (m - Ids(metadata)).Keys <==> TaskFor(tasks, id).Some? && id !in Ids(metadata)
  {
  }

  lemma MergedSnoc(metadata: seq<Container>, k: nat, tasks: seq<TaskSnapshot>, containers: seq<Container>, c: Container)
    requires k < |metadata| && AllMerged(metadata[..k], tasks, containers)
    requires MergedWith(metadata[k], TaskFor(tasks, metadata[k].id)) == Some(c)
    ensures AllMerged(metadata[..k + 1], tasks, containers + [c])
  {
    assert metadata[..k + 1] == metadata[..k] + [metadata[k]];
  }

  lemma MergeStep(metadata: seq<Container>, k: nat)
    requires k < |metadata| && DistinctMetadata(metadata)
    ensures Ids(metadata[..k + 1]) == Ids(metadata[..k]) + {metadata[k].id}
    ensures metadata[k].id !in Ids(metadata[..k])
    ensures metadata[..k + 1][..k] == metadata[..k]
  {
  }

  /** One container, stale or merged with the task still held for it. */
  method MergeOne(c: Container, left: map<ContainerID, TaskSnapshot>, ghost tasks: seq<TaskSnapshot>,
                  ghost tasksByID: map<ContainerID, TaskSnapshot>) returns (merged: Option<Container>)
    requires Indexes(tasksByID, tasks) && Stores(tasksByID, tasks)
    requires c.id in left <==> c.id in tasksByID
    requires c.id in left ==> left[c.id] == tasksByID[c.id]
    ensures merged == MergedWith(c, TaskFor(tasks, c.id))
  {
    if c.id !in left {
      merged := Some(FillImages(MarkStale(c)));
    } else {
      merged := ApplyTask(c, left[c.id]);
      if merged.Some? {
        merged := Some(FillImages(merged.value));
      }
    }
  }

  // ---------------------------------------------------------------------------------------------
  // Determinism, permutation and partition
  // ---------------------------------------------------------------------------------------------

  /** The inputs determine the result. */
  lemma ReconciliationUnique(metadata: seq<Container>, tasks: seq<TaskSnapshot>, a: ReconcileResult, b: ReconcileResult)
    requires IsReconciliation(metadata, tasks, a) && IsReconciliation(metadata, tasks, b)
    ensures a == b
  {
    SortedUnique(a.cleanup, b.cleanup);
    assert forall i | 0 <= i < |metadata| :: a.containers[i] == b.containers[i];
  }

  lemma {:induction false} OccursTwice(tasks: seq<TaskSnapshot>, t: TaskSnapshot)
    ensures multiset(tasks)[t] >= 2 <==> exists i, j | 0 <= i < j < |tasks| :: tasks[i] == t && tasks[j] == t
  {
    if tasks != [] {
      var n := |tasks| - 1;
      var init := tasks[..n];
      OccursTwice(init, t);
      assert tasks == init + [tasks[n]];
      assert multiset(tasks) == multiset(init) + multiset{tasks[n]};
      if tasks[n] == t && t in multiset(init) {
        var i :| 0 <= i < n && init[i] == t;
        assert tasks[i] == t && tasks[n] == t;
      }
      if i, j :| 0 <= i < j < |tasks| && tasks[i] == t && tasks[j] == t {
        assert init[i] == t;
        if j < n {
          assert init[j] == t;
        }
      }
    }
  }

  /** Distinctness, said of the collection rather than of its order. */
  lemma DistinctAsMultiset(tasks: seq<TaskSnapshot>)
    ensures DistinctTasks(tasks) <==>
              && (forall t <- tasks :: TaskIdentity(t).Some? && multiset(tasks)[t] < 2)
              && (forall t, u | t in tasks && u in tasks && t != u :: TaskIdentity(t) != TaskIdentity(u))
  {
    if DistinctTasks(tasks) {
      forall t <- tasks
        ensures TaskIdentity(t).Some? && multiset(tasks)[t] < 2
      {
        OccursTwice(tasks, t);
      }
      forall t, u | t in tasks && u in tasks && t != u
        ensures TaskIdentity(t) != TaskIdentity(u)
      {
        var i :| 0 <= i < |tasks| && tasks[i] == t;
        var j :| 0 <= j < |tasks| && tasks[j] == u;
      }
    } else if forall t <- tasks :: TaskIdentity(t).Some? && multiset(tasks)[t] < 2 {
      assert forall i | 0 <= i < |tasks| :: tasks[i] in tasks;
      var i, j :| 0 <= i < j < |tasks| && TaskIdentity(tasks[i]) == TaskIdentity(tasks[j]);
      OccursTwice(tasks, tasks[i]);
    }
  }

  lemma TaskForPermuted(tasks: seq<TaskSnapshot>, tasks': seq<TaskSnapshot>, id: ContainerID)
    requires multiset(tasks) == multiset(tasks') && DistinctTasks(tasks)
    ensures TaskFor(tasks, id) == TaskFor(tasks', id)
  {
    assert forall t :: t in tasks <==> t in multiset(tasks);
    assert forall t :: t in tasks' <==> t in multiset(tasks');
    TaskForMeaning(tasks, id);
    TaskForMeaning(tasks', id);
    DistinctAsMultiset(tasks);
  }

  /** Two task lists that give every container the same task, if they are distinct at all. */
  ghost predicate SameTasks(tasks: seq<TaskSnapshot>, tasks': seq<TaskSnapshot>) {
    && (DistinctTasks(tasks) <==> DistinctTasks(tasks'))
    && (DistinctTasks(tasks) ==> forall id :: TaskFor(tasks, id) == TaskFor(tasks', id))
  }

  lemma PermutedTasks(tasks: seq<TaskSnapshot>, tasks': seq<TaskSnapshot>)
    requires multiset(tasks) == multiset(tasks')
    ensures SameTasks(tasks, tasks')
  {
    PermutedDistinct(tasks, tasks');
    if DistinctTasks(tasks) {
      forall id
        ensures TaskFor(tasks, id) == TaskFor(tasks', id)
      {
        TaskForPermuted(tasks, tasks', id);
      }
    }
  }

  lemma PermutedDistinct(tasks: seq<TaskSnapshot>, tasks': seq<TaskSnapshot>)
    requires multiset(tasks) == multiset(tasks')
    ensures DistinctTasks(tasks) <==> DistinctTasks(tasks')
  {
    assert forall t :: t in tasks <==> t in multiset(tasks);
    assert forall t :: t in tasks' <==> t in multiset(tasks');
    DistinctAsMultiset(tasks);
    DistinctAsMultiset(tasks');
  }

  lemma SameReconciliation(metadata: seq<Container>, tasks: seq<TaskSnapshot>, tasks': seq<TaskSnapshot>,
                           r: ReconcileResult)
    requires forall id :: TaskFor(tasks, id) == TaskFor(tasks', id)
    ensures IsReconciliation(metadata, tasks, r) ==> IsReconciliation(metadata, tasks', r)
  {
    SameStale(metadata, tasks, tasks');
    if IsReconciliation(metadata, tasks, r) {
      SameMerged(metadata, tasks, tasks', r.containers);
    }
  }

  lemma SameMerged(metadata: seq<Container>, tasks: seq<TaskSnapshot>, tasks': seq<TaskSnapshot>, cs: seq<Container>)
    requires forall id :: TaskFor(tasks, id) == TaskFor(tasks', id)
    ensures AllMerged(metadata, tasks, cs) ==> AllMerged(metadata, tasks', cs)
  {
  }

  /** The order of the task list changes neither whether reconciliation succeeds nor its result. */
  lemma PermutationInvariant(metadata: seq<Container>, tasks: seq<TaskSnapshot>, tasks': seq<TaskSnapshot>)
    requires multiset(tasks) == multiset(tasks')
    ensures Reconcilable(metadata, tasks) <==> Reconcilable(metadata, tasks')
    ensures forall r | Reconcilable(metadata, tasks) ::
              IsReconciliation(metadata, tasks, r) <==> IsReconciliation(metadata, tasks', r)
  {
    PermutedTasks(tasks, tasks');
    if Reconcilable(metadata, tasks) {
      forall r
        ensures IsReconciliation(metadata, tasks, r) <==> IsReconciliation(metadata, tasks', r)
      {
        SameReconciliation(metadata, tasks, tasks', r);
        SameReconciliation(metadata, tasks', tasks, r);
      }
    }
  }

  lemma {:induction false} SameStale(metadata: seq<Container>, tasks: seq<TaskSnapshot>, tasks': seq<TaskSnapshot>)
    requires forall id :: TaskFor(tasks, id) == TaskFor(tasks', id)
    ensures StaleIds(metadata, tasks) == StaleIds(metadata, tasks')
  {
    if metadata != [] {
      SameStale(metadata[..|metadata| - 1], tasks, tasks');
    }
  }

  lemma {:induction false} StaleMeaning(metadata: seq<Container>, tasks: seq<TaskSnapshot>, id: ContainerID)
    ensures id in StaleIds(metadata, tasks) <==> id in Ids(metadata) && TaskFor(tasks, id).None?
  {
    if metadata != [] {
      var n := |metadata| - 1;
      StaleMeaning(metadata[..n], tasks, id);
      assert Ids(metadata) == Ids(metadata[..n]) + {metadata[n].id};
    }
  }

  /**
   Partition: every container is stale or merged with its one task, every task belongs to one container or
   is listed for cleanup, and containers keep the IDs and order of the metadata.
   */
  lemma ReconcilePartitions(metadata: seq<Container>, tasks: seq<TaskSnapshot>, r: ReconcileResult)
    requires Reconcilable(metadata, tasks) && IsReconciliation(metadata, tasks, r)
    ensures forall i | 0 <= i < |metadata| :: r.containers[i].id == metadata[i].id
    ensures forall i | 0 <= i < |metadata| ::
              metadata[i].id in r.stale <==> forall t <- tasks :: TaskIdentity(t) != Some(metadata[i].id)
    ensures forall t <- tasks ::
              (TaskIdentity(t).value in Ids(metadata)) != (TaskIdentity(t).value in r.cleanup)
    ensures forall t, u | t in tasks && u in tasks && t != u :: TaskIdentity(t) != TaskIdentity(u)
    ensures forall i, t | 0 <= i < |metadata| && t in tasks && TaskIdentity(t) == Some(metadata[i].id) ::
              TakesOver(metadata[i], t, r.containers[i])
  {
    DistinctAsMultiset(tasks);
    forall i, t | 0 <= i < |metadata| && t in tasks && TaskIdentity(t) == Some(metadata[i].id)
      ensures TakesOver(metadata[i], t, r.containers[i])
    {
      TaskForMeaning(tasks, metadata[i].id);
      MergedMeaning(metadata[i], t);
    }
    forall i | 0 <= i < |metadata|
      ensures r.containers[i].id == metadata[i].id
      ensures metadata[i].id in r.stale <==> forall t <- tasks :: TaskIdentity(t) != Some(metadata[i].id)
    {
      StaleMeaning(metadata, tasks, metadata[i].id);
      TaskForMeaning(tasks, metadata[i].id);
    }
    forall t <- tasks
      ensures (TaskIdentity(t).value in Ids(metadata)) != (TaskIdentity(t).value in r.cleanup)
    {
      TaskForMeaning(tasks, TaskIdentity(t).value);
    }
  }
}
