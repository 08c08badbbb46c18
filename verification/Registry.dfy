/** The in-memory container index: one map by ID, one by name. */
module ContainerRegistry {
  import opened Bytes
  import opened Domain
  import opened Ordering

  datatype RegistryError = NotFound | NameConflict | EmptyName | EmptyIdentity | ContextDone

  datatype Lookup = Found(container: Container) | Absent(error: RegistryError)

  // ---------------------------------------------------------------------------------------------
  // The simple registry: a single map, searched linearly for names
  // ---------------------------------------------------------------------------------------------

  type Directory = map<ContainerID, Container>

  predicate NameTaken(m: Directory, name: string, owner: ContainerID) {
    name != "" && exists i <- m :: i != owner && m[i].name == name
  }

  datatype Change = Change(directory: Directory, error: Option<RegistryError>)

  function SaveSpec(m: Directory, c: Container, live: bool): Change {
    if !live then Change(m, Some(ContextDone))
    else if c.id == "" then Change(m, Some(EmptyIdentity))
    else if NameTaken(m, c.name, c.id) then Change(m, Some(NameConflict))
    else Change(m[c.id := FillImages(c)], None)
  }

  function RenameSpec(m: Directory, id: ContainerID, name: string): Change {
    if name == "" then Change(m, Some(EmptyName))
    else if id !in m then Change(m, Some(NotFound))
    else if NameTaken(m, name, id) then Change(m, Some(NameConflict))
    else Change(m[id := m[id].(name := name)], None)
  }

  function RemoveSpec(m: Directory, id: ContainerID, live: bool): Change {
    if !live then Change(m, Some(ContextDone))
    else if id !in m then Change(m, Some(NotFound))
    else Change(m - {id}, None)
  }

  datatype RegistryOp =
    | Save(container: Container, live: bool)
    | Rename(id: ContainerID, name: string)
    | Remove(id: ContainerID, live: bool)

  function ApplySpec(m: Directory, op: RegistryOp): Change {
    match op
    case Save(c, live) => SaveSpec(m, c, live)
    case Rename(id, name) => RenameSpec(m, id, name)
    case Remove(id, live) => RemoveSpec(m, id, live)
  }

  ghost function RunSpec(m: Directory, ops: seq<RegistryOp>): Directory
    decreases |ops|
  {
    if ops == [] then m else RunSpec(ApplySpec(m, ops[0]).directory, ops[1..])
  }

  /** Records are filed under their own non-empty ID, and no two share a non-empty name. */
  ghost predicate WellKept(m: Directory) {
    && (forall i <- m :: m[i].id == i != "")
    && (forall i, j | i in m && j in m && i != j :: m[i].name != "" ==> m[i].name != m[j].name)
  }

  lemma ApplyWellKept(m: Directory, op: RegistryOp)
    requires WellKept(m)
    ensures WellKept(ApplySpec(m, op).directory)
  {
  }

  /** Over every run, IDs stay keys of their own records and names stay unique. */
  lemma {:induction false} RunsAreWellKept(m: Directory, ops: seq<RegistryOp>)
    requires WellKept(m)
    ensures WellKept(RunSpec(m, ops))
    decreases |ops|
  {
    if ops != [] {
      ApplyWellKept(m, ops[0]);
      RunsAreWellKept(ApplySpec(m, ops[0]).directory, ops[1..]);
    }
  }

  /** A failing operation changes nothing. */
  lemma FailuresChangeNothing(m: Directory, op: RegistryOp)
    ensures ApplySpec(m, op).error.Some? ==> ApplySpec(m, op).directory == m
  {
  }

  // ---------------------------------------------------------------------------------------------
  // The indexed registry
  // ---------------------------------------------------------------------------------------------

  /** The two indexes agree: a name leads to an ID exactly when that record bears the name. */
  ghost predicate Indexed(byID: Directory, byName: map<string, ContainerID>) {
    && (forall n <- byName :: n != "" && byName[n] in byID && byID[byName[n]].name == n)
    && (forall i <- byID :: byID[i].name != "" ==> byID[i].name in byName && byName[byID[i].name] == i)
  }

  /** The name index after filing `c` under `id`. */
  ghost function Reindexed(byID: Directory, byName: map<string, ContainerID>, id: ContainerID, c: Container)
    : map<string, ContainerID>
  {
    var base := if id in byID then byName - {byID[id].name} else byName;
    if c.name == "" then base else base[c.name := id]
  }

  lemma ReindexedAgrees(byID: Directory, byName: map<string, ContainerID>, id: ContainerID, c: Container)
    requires Indexed(byID, byName) && !NameTaken(byID, c.name, id)
    ensures Indexed(byID[id := c], Reindexed(byID, byName, id, c))
  {
  }

  /** The name index as Save updates it, dropping the previous name only if it changed. */
  ghost function SavedIndex(byID: Directory, byName: map<string, ContainerID>, id: ContainerID, name: string)
    : map<string, ContainerID>
  {
    var base := if id in byID && byID[id].name != "" && byID[id].name != name then byName - {byID[id].name} else byName;
    if name != "" then base[name := id] else base
  }

  lemma SavedIndexAgrees(byID: Directory, byName: map<string, ContainerID>, id: ContainerID, c: Container)
    requires Indexed(byID, byName) && !NameTaken(byID, c.name, id)
    ensures Indexed(byID[id := c], SavedIndex(byID, byName, id, c.name))
  {
    ReindexedAgrees(byID, byName, id, c);
    assert SavedIndex(byID, byName, id, c.name) == Reindexed(byID, byName, id, c);
  }

  /** The name index as Rename updates it. */
  lemma RenamedIndexAgrees(byID: Directory, byName: map<string, ContainerID>, id: ContainerID, name: string)
    requires Indexed(byID, byName) && id in byID && name != "" && !NameTaken(byID, name, id)
    ensures var base := if byID[id].name != "" then byName - {byID[id].name} else byName;
      Indexed(byID[id := byID[id].(name := name)], base[name := id])
  {
    var c := byID[id].(name := name);
    ReindexedAgrees(byID, byName, id, c);
    assert byID[id].name == "" ==> byName - {byID[id].name} == byName;
  }

  /** The name index as Remove updates it. */
  lemma RemovedIndexAgrees(byID: Directory, byName: map<string, ContainerID>, id: ContainerID)
    requires Indexed(byID, byName) && id in byID
    ensures Indexed(byID - {id}, if byID[id].name != "" then byName - {byID[id].name} else byName)
  {
  }

  /** The name index decides conflicts as a search of all records would. */
  lemma NameIndex(byID: Directory, byName: map<string, ContainerID>, name: string, id: ContainerID)
    requires Indexed(byID, byName)
    ensures NameTaken(byID, name, id) <==> name != "" && name in byName && byName[name] != id
  {
  }

  class Registry {
    var byID: map<ContainerID, Container>
    var byName: map<string, ContainerID>

    ghost predicate Valid()
      reads this
    {
      WellKept(byID) && Indexed(byID, byName)
    }

    constructor ()
      ensures Valid() && byID == map[]
    {
      byID, byName := map[], map[];
    }

    method Get(id: ContainerID, live: bool) returns (r: Lookup)
      ensures r == Absent(ContextDone) <==> !live
      ensures r == Absent(NotFound) <==> live && id !in byID
      ensures r.Found? ==> id in byID && r.container == byID[id]
      ensures r.Absent? ==> r.error in {ContextDone, NotFound}
    {
      r := if !live then Absent(ContextDone) else if id !in byID then Absent(NotFound) else Found(byID[id]);
    }

    /** The name index gives what a search of all records would. */
    method GetByName(name: string) returns (r: Option<Container>)
      requires Valid()
      ensures r.Some? <==> name != "" && exists i <- byID :: byID[i].name == name
      ensures r.Some? ==> r.value.id in byID && byID[r.value.id] == r.value && r.value.name == name
    {
      r := if name in byName then Some(byID[byName[name]]) else None;
    }

    /** Every record, in strictly ascending order of ID. */
    method List() returns (r: seq<Container>)
      requires Valid()
      ensures forall c :: c in r <==> c.id in byID && byID[c.id] == c
      ensures forall i, j | 0 <= i < j < |r| :: Less(r[i].id, r[j].id)
    {
      var ids := Sorted(byID.Keys);
      r := [];
      var k := 0;
      while k < |ids|
        invariant 0 <= k <= |ids| && |r| == k
        invariant forall i | 0 <= i < k :: ids[i] in byID && r[i] == byID[ids[i]]
      {
        assert ids[k] in ids;
        r := r + [byID[ids[k]]];
        k := k + 1;
      }
      forall c
        ensures c in r <==> c.id in byID && byID[c.id] == c
      {
        if c.id in byID && byID[c.id] == c {
          assert c.id in ids;
          var i :| 0 <= i < |ids| && ids[i] == c.id;
          assert r[i] == c;
        }
      }
    }

    method Save(c: Container, live: bool) returns (err: Option<RegistryError>)
      requires Valid()
      modifies this
      ensures Valid()
      ensures Change(byID, err) == SaveSpec(old(byID), c, live)
      ensures err == Some(ContextDone) <==> !live
      ensures err == Some(EmptyIdentity) <==> live && c.id == ""
      ensures err == Some(NameConflict) <==>
                live && c.id != "" && c.name != "" && exists i <- old(byID) :: i != c.id && old(byID)[i].name == c.name
      ensures err != Some(NotFound) && err != Some(EmptyName)
      ensures err.Some? ==> byID == old(byID)
      ensures err.None? ==>
                && c.id in byID && byID == old(byID)[c.id := byID[c.id]]
                && byID[c.id] == c.(image := byID[c.id].image, imageReference := byID[c.id].imageReference)
                && byID[c.id].image == (if c.image != "" then c.image else c.imageReference)
                && byID[c.id].imageReference == (if c.imageReference != "" then c.imageReference else c.image)
    {
      ApplyWellKept(byID, RegistryOp.Save(c, live));
      NameIndex(byID, byName, c.name, c.id);
      if !live {
        return Some(ContextDone);
      }
      if c.id == "" {
        return Some(EmptyIdentity);
      }
      if c.name != "" && c.name in byName && byName[c.name] != c.id {
        return Some(NameConflict);
      }
      SavedIndexAgrees(byID, byName, c.id, FillImages(c));
      if c.id in byID && byID[c.id].name != "" && byID[c.id].name != c.name {
        byName := byName - {byID[c.id].name};
      }
      byID := byID[c.id := FillImages(c)];
      if c.name != "" {
        byName := byName[c.name := c.id];
      }
      return None;
    }

    method Rename(id: ContainerID, name: string) returns (err: Option<RegistryError>)
      requires Valid()
      modifies this
      ensures Valid()
      ensures Change(byID, err) == RenameSpec(old(byID), id, name)
      ensures err == Some(EmptyName) <==> name == ""
      ensures err == Some(NotFound) <==> name != "" && id !in old(byID)
      ensures err == Some(NameConflict) <==>
                name != "" && id in old(byID) && exists i <- old(byID) :: i != id && old(byID)[i].name == name
      ensures err != Some(ContextDone) && err != Some(EmptyIdentity)
      ensures err.Some? ==> byID == old(byID)
      ensures err.None? ==>
                && id in byID && byID[id].name == name && byID == old(byID)[id := old(byID)[id].(name := byID[id].name)]
    {
      ApplyWellKept(byID, RegistryOp.Rename(id, name));
      NameIndex(byID, byName, name, id);
      if name == "" {
        return Some(EmptyName);
      }
      if id !in byID {
        return Some(NotFound);
      }
      if name in byName && byName[name] != id {
        return Some(NameConflict);
      }
      var container := byID[id];
      RenamedIndexAgrees(byID, byName, id, name);
      if container.name != "" {
        byName := byName - {container.name};
      }
      byID := byID[id := container.(name := name)];
      byName := byName[name := id];
      return None;
    }

    method Remove(id: ContainerID, live: bool) returns (err: Option<RegistryError>)
      requires Valid()
      modifies this
      ensures Valid()
      ensures Change(byID, err) == RemoveSpec(old(byID), id, live)
      ensures err == if !live then Some(ContextDone) else if id !in old(byID) then Some(NotFound) else None
      ensures byID.Keys == if err.None? then old(byID).Keys - {id} else old(byID).Keys
      ensures forall i <- byID :: byID[i] == old(byID)[i]
    {
      if !live {
        return Some(ContextDone);
      }
      if id !in byID {
        return Some(NotFound);
      }
      var container := byID[id];
      RemovedIndexAgrees(byID, byName, id);
      ApplyWellKept(byID, RegistryOp.Remove(id, live));
      byID := byID - {id};
      if container.name != "" {
        byName := byName - {container.name};
      }
      return None;
    }

    /** Any run on the two indexes is the same run on the single map. */
    method Run(ops: seq<RegistryOp>)
      requires Valid()
      modifies this
      ensures Valid()
      ensures byID == RunSpec(old(byID), ops)
    {
      var i := 0;
      assert ops[0..] == ops;
      while i < |ops|
        invariant 0 <= i <= |ops| && Valid()
        invariant RunSpec(old(byID), ops) == RunSpec(byID, ops[i..])
      {
        assert ops[i..][1..] == ops[i + 1..];
        var err;
        match ops[i] {
          case Save(c, live) => err := this.Save(c, live);
          case Rename(id, name) => err := this.Rename(id, name);
          case Remove(id, live) => err := this.Remove(id, live);
        }
        i := i + 1;
      }
    }
  }
}
