/** Rebuilding the registry from reconciled state when the daemon starts. */
module Startup {
  import opened Bytes
  import opened Domain
  import opened ContainerRegistry
  import opened Reconciliation

  /** Saving containers one after another until one is refused. */
  ghost function SaveAll(m: Directory, cs: seq<Container>): Change {
    if cs == [] then Change(m, None)
    else
      var before := SaveAll(m, cs[..|cs| - 1]);
      if before.error.Some? then before else SaveSpec(before.directory, cs[|cs| - 1], true)
  }

  ghost predicate DistinctNames(cs: seq<Container>) {
    forall i, j | 0 <= i < j < |cs| :: cs[i].name != "" ==> cs[i].name != cs[j].name
  }

  /** What reconciliation hands over: distinct non-empty IDs and complete image names. */
  ghost predicate Recoverable(cs: seq<Container>) {
    DistinctMetadata(cs) && forall i | 0 <= i < |cs| :: FillImages(cs[i]) == cs[i]
  }

  /** The registry that holds exactly these containers. */
  ghost predicate Holds(m: Directory, cs: seq<Container>) {
    && (forall i | 0 <= i < |cs| :: cs[i].id in m && m[cs[i].id] == cs[i])
    && (forall id <- m :: exists i | 0 <= i < |cs| :: cs[i].id == id)
  }

  /**
   Starting from an empty registry, saving all recovered containers succeeds exactly when no two share a
   non-empty name, and then the registry holds exactly them.
   */
  lemma {:induction false} RecoveryOutcome(cs: seq<Container>)
    requires Recoverable(cs)
    ensures SaveAll(map[], cs).error.None? <==> DistinctNames(cs)
    ensures DistinctNames(cs) ==> Holds(SaveAll(map[], cs).directory, cs)
  {
    if cs != [] {
      var n := |cs| - 1;
      var init, last := cs[..n], cs[n];
      RecoveryOutcome(init);
      assert cs == init + [last];
      if DistinctNames(init) {
        var m := SaveAll(map[], init).directory;
        NameClash(m, init, last);
        if !NameTaken(m, last.name, last.id) {
          HoldsSnoc(m, init, last);
        }
      }
    }
  }

  lemma NameClash(m: Directory, init: seq<Container>, last: Container)
    requires Holds(m, init) && DistinctMetadata(init + [last])
    ensures NameTaken(m, last.name, last.id) <==>
              last.name != "" && exists i | 0 <= i < |init| :: init[i].name == last.name
  {
    var cs := init + [last];
    assert forall i | 0 <= i < |init| :: cs[i] == init[i] && cs[i].id != cs[|init|].id;
  }

  lemma HoldsSnoc(m: Directory, init: seq<Container>, last: Container)
    requires Holds(m, init) && DistinctMetadata(init + [last])
    ensures Holds(m[last.id := last], init + [last])
  {
    var cs := init + [last];
    assert forall i | 0 <= i < |init| :: cs[i] == init[i] && cs[i].id != cs[|init|].id;
    var m' := m[last.id := last];
    forall id <- m'
      ensures exists i | 0 <= i < |cs| :: cs[i].id == id
    {
      if id == last.id {
        assert cs[|init|].id == id;
      } else {
        var i :| 0 <= i < |init| && init[i].id == id;
        assert cs[i].id == id;
      }
    }
  }

  lemma ReconciledIsRecoverable(metadata: seq<Container>, tasks: seq<TaskSnapshot>, r: ReconcileResult)
    requires Reconcilable(metadata, tasks) && IsReconciliation(metadata, tasks, r)
    ensures Recoverable(r.containers)
    ensures DistinctNames(r.containers) <==> DistinctNames(metadata)
  {
    forall i | 0 <= i < |metadata|
      ensures r.containers[i].id == metadata[i].id && r.containers[i].name == metadata[i].name
      ensures FillImages(r.containers[i]) == r.containers[i]
    {
      MergedKeeps(metadata[i], TaskFor(tasks, metadata[i].id));
    }
  }

  lemma MergedKeeps(c: Container, t: Option<TaskSnapshot>)
    ensures var m := MergedWith(c, t);
      m.Some? ==> m.value.id == c.id && m.value.name == c.name && FillImages(m.value) == m.value
  {
  }

  datatype StartupResult = Recovered | ReconcileFailed(problem: ReconcileError) | SaveFailed(refusal: RegistryError)

  /**
   Startup: an empty registry ends up holding exactly the reconciled containers, if and only if the
   snapshots reconcile and no two containers share a non-empty name.
   */
  method ReconcileAtStartup(registry: Registry, metadata: seq<Container>, tasks: seq<TaskSnapshot>)
    returns (r: StartupResult, ghost result: ReconcileResult)
    requires registry.Valid() && registry.byID == map[]
    modifies registry
    ensures registry.Valid()
    ensures r.Recovered? <==> Reconcilable(metadata, tasks) && DistinctNames(metadata)
    ensures r.ReconcileFailed? <==> !Reconcilable(metadata, tasks)
    ensures r.ReconcileFailed? ==> IsReason(metadata, tasks, r.problem)
    ensures r.Recovered? ==> IsReconciliation(metadata, tasks, result) && Holds(registry.byID, result.containers)
  {
    var reconciled := Reconcile(metadata, tasks);
    if reconciled.Rejected? {
      return ReconcileFailed(reconciled.error), ReconcileResult([], [], []);
    }
    result := reconciled.result;
    var containers := reconciled.result.containers;
    ReconciledIsRecoverable(metadata, tasks, result);
    RecoveryOutcome(containers);
    var err := SaveRecovered(registry, containers);
    r := if err.Some? then SaveFailed(err.value) else Recovered;
  }

  method SaveRecovered(registry: Registry, containers: seq<Container>) returns (err: Option<RegistryError>)
    requires registry.Valid() && registry.byID == map[]
    modifies registry
    ensures registry.Valid()
    ensures err.Some? <==> SaveAll(map[], containers).error.Some?
    ensures err.None? ==> registry.byID == SaveAll(map[], containers).directory
  {
    var k := 0;
    while k < |containers|
      invariant 0 <= k <= |containers| && registry.Valid()
      invariant Change(registry.byID, None) == SaveAll(map[], containers[..k])
    {
      SaveAllSnoc(containers, k);
      err := registry.Save(containers[k], true);
      if err.Some? {
        StaysRefused(containers, k + 1);
        return;
      }
      k := k + 1;
    }
    assert containers[..k] == containers;
    err := None;
  }

  lemma SaveAllSnoc(cs: seq<Container>, k: nat)
    requires k < |cs| && SaveAll(map[], cs[..k]).error.None?
    ensures SaveAll(map[], cs[..k + 1]) == SaveSpec(SaveAll(map[], cs[..k]).directory, cs[k], true)
  {
    assert cs[..k + 1][..k] == cs[..k];
  }

  lemma {:induction false} StaysRefused(cs: seq<Container>, k: nat)
    requires k <= |cs| && SaveAll(map[], cs[..k]).error.Some?
    ensures SaveAll(map[], cs).error.Some?
    decreases |cs|
  {
    if k < |cs| {
      assert cs[..|cs| - 1][..k] == cs[..k];
      StaysRefused(cs[..|cs| - 1], k);
    } else {
      assert cs[..k] == cs;
    }
  }
}
