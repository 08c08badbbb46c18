/** What each lifecycle step leaves on record, field by field. */
module Records {
  import opened Bytes
  import opened Text
  import opened PortMap
  import opened PortBatch
  import opened Domain
  import opened ContainerRegistry
  import opened Lifecycle
  import opened Ownership

  /** The records differ at most in that of `id`. */
  ghost predicate OnlyRecord(d: Daemon, d': Daemon, id: ContainerID) {
    forall i | i != id :: (i in d'.records <==> i in d.records) && (i in d.records ==> d'.records[i] == d.records[i])
  }

  /** A record with another state and other networks; the rest is as before. */
  ghost predicate SameButState(c: Container, c': Container) {
    && c'.id == c.id && c'.name == c.name && c'.portBindings == c.portBindings
    && c'.exitCode == c.exitCode && c'.startedAt == c.startedAt && c'.finishedAt == c.finishedAt
    && c'.error == c.error && c'.oomKilled == c.oomKilled && c'.dead == c.dead && c'.updatedAt == c.updatedAt
  }

  /** Either image name stands in for a missing one; nothing else is touched. */
  lemma FillImagesMeaning(c: Container)
    ensures SameButState(c, FillImages(c)) && FillImages(c).state == c.state && FillImages(c).networks == c.networks
    ensures FillImages(c).image == if c.image != "" then c.image else c.imageReference
    ensures FillImages(c).imageReference == if c.imageReference != "" then c.imageReference else c.image
  {
  }

  /** Persisting a record of a registered container under a live context stores it; otherwise nothing changes. */
  lemma Persisted(d: Daemon, c: Container, live: bool, d': Daemon)
    requires WellKept(d.records) && c.id in d.records && c.name == d.records[c.id].name && d' == Persist(d, c, live)
    ensures d' == d.(records := d'.records) && OnlyRecord(d, d', c.id) && c.id in d'.records
    ensures live ==>
              && SameButState(c, d'.records[c.id]) && d'.records[c.id].state == c.state
              && d'.records[c.id].networks == c.networks
    ensures !live ==> d' == d
  {
    PersistEffect(d, c, live);
    FillImagesMeaning(c);
  }

  // ---------------------------------------------------------------------------------------------
  // Create
  // ---------------------------------------------------------------------------------------------

  /** The name is free, or none was asked for. */
  ghost predicate NameFree(d: Daemon, name: string) {
    name == "" || forall i <- d.records :: d.records[i].name != name
  }

  /** The networks when a create reserves ports: the default network is made on demand. */
  ghost function NetworksFor(d: Daemon, mode: Mode): set<string> {
    if mode == NetworkMode("bridge") then d.networks + {"bridge"} else d.networks
  }

  /** A create succeeds exactly under these conditions. */
  ghost predicate Creates(cfg: Config, d: Daemon, req: CreateRequest, env: CreateEnv) {
    && env.accepted && NameFree(d, req.name)
    && (req.mode.NetworkMode? ==> req.mode.network in NetworksFor(d, req.mode))
    && (req.ports != [] ==>
          req.mode.NetworkMode? && Batch(cfg, d.used, req.ports, env.probes, NO_RIVALS).result.Ok?)
    && env.labelsOk && env.runtimeID.Some? && env.runtimeID.value != "" && env.live
  }

  /** The record of a created container. */
  ghost predicate CreatedAs(c: Container, req: CreateRequest) {
    && c.name == req.name && c.image == req.image && c.imageReference == req.image && c.state == Created
    && c.networks == [match req.mode case HostMode => "host" case NoneMode => "none" case NetworkMode(n) => n]
    && |c.portBindings| == |req.ports|
    && forall i | 0 <= i < |req.ports| ::
         && c.portBindings[i].containerPort == req.ports[i].containerPort
         && NormalizeProtocol(req.ports[i].protocol) == Some(c.portBindings[i].protocol)
         && c.portBindings[i].hostIP == NormalizeHostIP(req.ports[i].hostIP)
         && c.portBindings[i].hostPort > 0
         && (req.ports[i].hostPort > 0 ==> c.portBindings[i].hostPort == req.ports[i].hostPort)
  }

  lemma CreateRecords(cfg: Config, d: Daemon, req: CreateRequest, env: CreateEnv, d': Daemon)
    requires Safe(cfg, d.used) && WellKept(d.records) && d' == CreateStep(cfg, d, req, env)
    requires env.runtimeID.Some? ==> env.runtimeID.value !in d.records
    ensures d'.attachments == d.attachments && d'.running == d.running
    ensures d'.networks == if env.accepted && NameFree(d, req.name) then NetworksFor(d, req.mode) else d.networks
    ensures Creates(cfg, d, req, env) ==>
              && OnlyRecord(d, d', env.runtimeID.value) && env.runtimeID.value in d'.records
              && d'.records[env.runtimeID.value].id == env.runtimeID.value
              && CreatedAs(d'.records[env.runtimeID.value], req)
    ensures !Creates(cfg, d, req, env) ==> d'.records == d.records
  {
    CreateGates(cfg, d, req, env);
    var ready := EnsureNetwork(d, req.mode);
    if env.accepted && NameFree(d, req.name) && !Refused(ready, req) {
      if req.ports == [] {
        RegisterRecords(ready, req, [], env, d');
      } else {
        ReservedRecords(cfg, ready, req, env, d');
      }
    }
  }

  /** The gates a create passes, in the daemon's own terms. */
  lemma CreateGates(cfg: Config, d: Daemon, req: CreateRequest, env: CreateEnv)
    requires WellKept(d.records)
    ensures NameTaken(d.records, req.name, "") <==> !NameFree(d, req.name)
    ensures EnsureNetwork(d, req.mode) == d.(networks := NetworksFor(d, req.mode))
    ensures Creates(cfg, d, req, env) <==>
              && env.accepted && NameFree(d, req.name) && !Refused(EnsureNetwork(d, req.mode), req)
              && (req.ports == [] || Batch(cfg, d.used, req.ports, env.probes, NO_RIVALS).result.Ok?) && Registers(env)
  {
  }

  lemma ReservedRecords(cfg: Config, d: Daemon, req: CreateRequest, env: CreateEnv, d': Daemon)
    requires Safe(cfg, d.used) && WellKept(d.records) && NameFree(d, req.name) && req.ports != []
    requires env.runtimeID.Some? ==> env.runtimeID.value !in d.records
    requires var out := Batch(cfg, d.used, req.ports, env.probes, NO_RIVALS);
      var after := d.(used := out.shared.Used());
      d' == if out.result.Fails? then after else Register(after, req, out.result.value.bindings, env)
    ensures d'.attachments == d.attachments && d'.running == d.running && d'.networks == d.networks
    ensures if Batch(cfg, d.used, req.ports, env.probes, NO_RIVALS).result.Ok? && Registers(env)
            then Registered(d, d', req, env) else d'.records == d.records
  {
    var out := Batch(cfg, d.used, req.ports, env.probes, NO_RIVALS);
    if out.result.Ok? {
      FilledFields(cfg, d.used, req.ports, env.probes);
      RegisterRecords(d.(used := out.shared.Used()), req, out.result.value.bindings, env, d');
    }
  }

  /** Nothing goes wrong once the ports are reserved. */
  ghost predicate Registers(env: CreateEnv) {
    env.labelsOk && env.runtimeID.Some? && env.runtimeID.value != "" && env.live
  }

  ghost predicate Registered(d: Daemon, d': Daemon, req: CreateRequest, env: CreateEnv)
    requires env.runtimeID.Some?
  {
    var id := env.runtimeID.value;
    OnlyRecord(d, d', id) && id in d'.records && d'.records[id].id == id && CreatedAs(d'.records[id], req)
  }

  lemma FilledFields(cfg: Config, used: set<PortKey>, ports: seq<PortBinding>, probes: nat -> Probe)
    requires Safe(cfg, used) && Batch(cfg, used, ports, probes, NO_RIVALS).result.Ok?
    ensures var got := Batch(cfg, used, ports, probes, NO_RIVALS).result.value.bindings;
      |got| == |ports| && AllFill(ports, got)
  {
    BatchAllOrNothing(cfg, used, ports, probes, NO_RIVALS);
  }

  lemma RegisterRecords(d: Daemon, req: CreateRequest, ports: seq<PortBinding>, env: CreateEnv, d': Daemon)
    requires WellKept(d.records) && NameFree(d, req.name) && |ports| == |req.ports| && AllFill(req.ports, ports)
    requires env.runtimeID.Some? ==> env.runtimeID.value !in d.records
    requires d' == Register(d, req, ports, env)
    ensures d'.attachments == d.attachments && d'.running == d.running && d'.networks == d.networks
    ensures if Registers(env) then Registered(d, d', req, env) else d'.records == d.records
  {
    if env.runtimeID.Some? {
      var c := NewRecord(env.runtimeID.value, req, ports);
      FillImagesMeaning(c);
      RecordFields(c, req, ports);
    }
  }

  lemma RecordFields(c: Container, req: CreateRequest, ports: seq<PortBinding>)
    requires |ports| == |req.ports| && AllFill(req.ports, ports) && c == NewRecord(c.id, req, ports)
    ensures CreatedAs(FillImages(c), req)
  {
    assert forall i | 0 <= i < |ports| :: Fills(req.ports[i], ports[i]);
  }

  // ---------------------------------------------------------------------------------------------
  // Start
  // ---------------------------------------------------------------------------------------------

  /** The container joins a network through CNI when it starts. */
  ghost predicate NeedsNetwork(c: Container) {
    c.networks != [] && c.networks[0] !in {"", "host", "none"}
  }

  /** The join can succeed: the task has a PID, the network exists, no container port is 0, and CNI agrees. */
  ghost predicate CanJoin(d: Daemon, c: Container, env: StartEnv) {
    NeedsNetwork(c) ==>
      && env.pidOk && env.cniOk && c.networks[0] in d.networks
      && forall i | 0 <= i < |c.portBindings| :: c.portBindings[i].containerPort > 0
  }

  lemma JoinMeaning(cfg: Config, d: Daemon, id: ContainerID, env: StartEnv)
    requires Inv(cfg, d) && id in d.records
    ensures JoinFails(d, d.records[id], env) <==> !CanJoin(d, d.records[id], env)
    ensures Attachable(d.records[id]) == if NeedsNetwork(d.records[id]) then Some(d.records[id].networks[0]) else None
  {
    var c := d.records[id];
    assert SoundRecord(c) && Keys(c) <= d.used;
    OwnPortsAdopt(cfg, d.used, c.portBindings);
  }

  /** Reserved bindings can be adopted, and are mapped unless one has container port 0. */
  lemma OwnPortsAdopt(cfg: Config, used: set<PortKey>, ports: seq<PortBinding>)
    requires Safe(cfg, used) && Named(ports) && BindingKeys(ports) <= used
    ensures AdoptResult(used, ports).Ok?
    ensures BuildPortMappings(ports).Ok? <==> forall i | 0 <= i < |ports| :: ports[i].containerPort > 0
  {
    forall i | 0 <= i < |ports|
      ensures BindingKey(ports[i]).Some? && BindingKey(ports[i]).value in used && ports[i].hostPort > 0
    {
      KeyIsIn(ports, i);
      assert BindingKey(ports[i]).value.port == ports[i].hostPort;
    }
    AdoptMeaning(used, ports);
    MappingsMeaning(ports);
    assert forall i | 0 <= i < |ports| :: Mappable(ports[i]) <==> ports[i].containerPort > 0;
  }

  /** A container that is unknown or already running, or whose task does not start, is left alone. */
  lemma StartSkips(cfg: Config, d: Daemon, id: ContainerID, env: StartEnv)
    ensures id !in d.records || id in d.running || !env.taskStarted ==> StartStep(cfg, d, id, env) == d
  {
  }

  /**
   A start that joins: the task runs, the record says so and names the joined network, and an attachment
   there holds the container's ports. A task that exited meanwhile is recorded in the state reported for it.
   */
  lemma StartRecords(cfg: Config, d: Daemon, id: ContainerID, env: StartEnv, d': Daemon)
    requires Inv(cfg, d) && id in d.records && id !in d.running && env.taskStarted && CanJoin(d, d.records[id], env)
    requires d' == StartStep(cfg, d, id, env)
    ensures d'.used == d.used && d'.networks == d.networks && OnlyRecord(d, d', id) && id in d'.records
    ensures d'.running == if env.exits then d.running else d.running + {id}
    ensures NeedsNetwork(d.records[id]) ==>
              var key := AttachmentKey(id, d.records[id].networks[0]);
              && key in d'.attachments && d'.attachments == d.attachments[key := d'.attachments[key]]
              && Held(d'.attachments[key]) == Keys(d.records[id])
              && d'.attachments[key].ports == d.records[id].portBindings
    ensures !NeedsNetwork(d.records[id]) ==> d'.attachments == d.attachments
    ensures env.live && (!env.exits || env.seen in {Running, Created, Unknown}) ==>
              && SameButState(d.records[id], d'.records[id]) && d'.records[id].state == Running
              && d'.records[id].networks
                 == if NeedsNetwork(d.records[id]) then [d.records[id].networks[0]] else d.records[id].networks
    ensures env.live && env.exits && env.seen !in {Running, Created, Unknown} ==>
              && SameButState(d.records[id], d'.records[id]) && d'.records[id].state == env.seen
              && d'.records[id].networks == d.records[id].networks
    ensures !env.live ==> d'.records == d.records
  {
    var c := d.records[id];
    JoinMeaning(cfg, d, id, env);
    var joined := JoinedState(cfg, d, id, env);
    var c' := FinishedFields(joined, c, true, env);
    assert d.running + {id} - {id} == d.running;
    Persisted(joined, c', env.live, d');
  }

  /** The daemon once the container joined, and perhaps exited. */
  lemma JoinedState(cfg: Config, d: Daemon, id: ContainerID, env: StartEnv) returns (joined: Daemon)
    requires Inv(cfg, d) && id in d.records && id !in d.running && env.taskStarted
    requires !JoinFails(d, d.records[id], env)
    ensures StartStep(cfg, d, id, env) == FinishStart(joined, d.records[id], true, env)
    ensures joined.used == d.used && joined.records == d.records && joined.networks == d.networks
    ensures joined.running == if env.exits then d.running + {id} - {id} else d.running + {id}
    ensures Attachable(d.records[id]).None? ==> joined.attachments == d.attachments
    ensures Attachable(d.records[id]).Some? ==>
              var key := AttachmentKey(id, Attachable(d.records[id]).value);
              && key in joined.attachments && joined.attachments == d.attachments[key := joined.attachments[key]]
              && Held(joined.attachments[key]) == Keys(d.records[id])
              && joined.attachments[key].ports == d.records[id].portBindings
  {
    var c := d.records[id];
    var after := Join(cfg, d.(running := d.running + {id}), c, env);
    joined := if env.exits then after.(running := after.running - {id}) else after;
    AdoptMeaning(d.used, c.portBindings);
  }

  /** What is persisted at the end of a start. */
  lemma FinishedFields(d: Daemon, c: Container, joined: bool, env: StartEnv) returns (c': Container)
    ensures FinishStart(d, c, joined, env) == Persist(d, c', env.live)
    ensures c'.id == c.id && c'.name == c.name && SameButState(c, c')
    ensures c.id in d.running || env.seen in {Running, Created, Unknown} ==>
              && c'.state == Running
              && c'.networks == if joined && Attachable(c).Some? then [Attachable(c).value] else c.networks
    ensures c.id !in d.running && env.seen !in {Running, Created, Unknown} ==>
              c'.state == env.seen && c'.networks == c.networks
  {
    var network := Attachable(c);
    c' := if c.id !in d.running && env.seen !in {Running, Created, Unknown} then c.(state := env.seen)
          else c.(networks := if joined && network.Some? then [network.value] else c.networks, state := Running);
  }

  /**
   A start whose join fails: nothing changes if the task is still live and can be stopped; the task stays if
   it cannot; an exited task is recorded in the state reported for it, its ports free.
   */
  lemma FailedStartRecords(cfg: Config, d: Daemon, id: ContainerID, env: StartEnv, d': Daemon)
    requires Inv(cfg, d) && id in d.records && id !in d.running && env.taskStarted && !CanJoin(d, d.records[id], env)
    requires d' == StartStep(cfg, d, id, env)
    ensures d'.attachments == d.attachments && d'.networks == d.networks && OnlyRecord(d, d', id) && id in d'.records
    ensures !env.exits && env.stopOk ==> d' == d
    ensures !env.exits && !env.stopOk ==> d' == d.(running := d.running + {id})
    ensures env.exits ==> d'.used == d.used - Keys(d.records[id]) && d'.running == d.running
    ensures env.exits && env.live ==>
              && SameButState(d.records[id], d'.records[id]) && d'.records[id].networks == d.records[id].networks
              && d'.records[id].state == if env.seen in {Running, Created, Unknown} then Running else env.seen
  {
    var c := d.records[id];
    JoinMeaning(cfg, d, id, env);
    FailedJoin(cfg, d, id, env, d');
    if env.exits {
      var freed := d.(used := d.used - Keys(c));
      var c' := FinishedFields(freed, c, false, env);
      Persisted(freed, c', env.live, d');
    }
  }

  // ---------------------------------------------------------------------------------------------
  // Stop, remove, connect, inspect, networks
  // ---------------------------------------------------------------------------------------------

  /** Stopping a container past the created state ends its task and records it as exited. */
  lemma StopRecords(d: Daemon, id: ContainerID, stopOk: bool, live: bool, d': Daemon)
    requires WellKept(d.records) && d' == StopStep(d, id, stopOk, live)
    ensures id !in d.records || d.records[id].state == Created || !stopOk ==> d' == d
    ensures id in d.records && d.records[id].state != Created && stopOk ==>
              && d' == d.(records := d'.records, running := d.running - {id}) && OnlyRecord(d, d', id) && id in d'.records
              && (live ==>
                    && SameButState(d.records[id], d'.records[id]) && d'.records[id].state == Exited
                    && d'.records[id].networks == d.records[id].networks)
              && (!live ==> d'.records == d.records)
  {
    if id in d.records && d.records[id].state != Created && stopOk {
      Persisted(d.(running := d.running - {id}), d.records[id].(state := Exited), live, d');
    }
  }

  /** A removal is refused for an unknown container or status, and without force for a live one. */
  lemma RemoveRecords(cfg: Config, d: Daemon, id: ContainerID, env: RemoveEnv, d': Daemon)
    requires Inv(cfg, d) && d' == RemoveStep(d, id, env)
    ensures (|| id !in d.records || !env.statusOk
             || (!env.force && (id in d.running || env.seen in {Running, Paused, Restarting}))) ==> d' == d
    ensures (&& id in d.records && env.statusOk
             && (env.force || (id !in d.running && env.seen !in {Running, Paused, Restarting}))) ==>
              && d'.records == (if env.runtimeOk && env.live then d.records - {id} else d.records)
              && d'.running == (if env.stopOk || env.runtimeOk then d.running - {id} else d.running)
              && d'.networks == d.networks
              && (forall a :: a in d'.attachments <==>
                    a in d.attachments && !(a.container == id && a.network in env.reached))
              && (forall a <- d'.attachments :: d'.attachments[a] == d.attachments[a])
  {
    if RemoveProceeds(d, id, env) {
      var d0 := if env.stopOk then d.(running := d.running - {id}) else d;
      RemovalShape(cfg, d, id, env, d0, d');
      assert d.running - {id} - {id} == d.running - {id};
    }
  }

  /** Connecting a running container adds the network at the end of its list and tracks an attachment without ports. */
  lemma ConnectRecords(d: Daemon, id: ContainerID, network: string, ok: bool, live: bool, d': Daemon)
    requires WellKept(d.records) && d' == ConnectStep(d, id, network, ok, live)
    ensures id !in d.records || id !in d.running || !ok || (network !in {"", "host", "none"} && network !in d.networks) ==>
              d' == d
    ensures id in d.records && id in d.running && ok && (network in {"", "host", "none"} || network in d.networks) ==>
              && d'.used == d.used && d'.networks == d.networks && d'.running == d.running
              && OnlyRecord(d, d', id) && id in d'.records
              && d'.attachments
                 == (if network in {"", "host", "none"} then d.attachments
                     else d.attachments[AttachmentKey(id, network) := AttachmentState([], [])])
              && (live ==>
                    && SameButState(d.records[id], d'.records[id]) && d'.records[id].state == d.records[id].state
                    && d'.records[id].networks
                       == if network in d.records[id].networks then d.records[id].networks
                          else d.records[id].networks + [network])
              && (!live ==> d'.records == d.records)
  {
    if id in d.records && id in d.running && ok && (network in {"", "host", "none"} || network in d.networks) {
      var c := d.records[id].(networks := Upsert(d.records[id].networks, network));
      var tracked := if network in {"", "host", "none"} then d
                     else d.(attachments := d.attachments[AttachmentKey(id, network) := AttachmentState([], [])]);
      Persisted(tracked, c, live, d');
    }
  }

  /** Inspecting records a live task as running and any other state as reported, but keeps the created state. */
  lemma InspectRecordsState(d: Daemon, id: ContainerID, seen: ContainerState, live: bool, d': Daemon)
    requires WellKept(d.records) && d' == RefreshStep(d, id, seen, live)
    ensures d' == d.(records := d'.records) && OnlyRecord(d, d', id)
    ensures id in d.records && live ==>
              && id in d'.records && SameButState(d.records[id], d'.records[id])
              && d'.records[id].networks == d.records[id].networks
              && d'.records[id].state == if id in d.running then Running
                                         else if d.records[id].state == Created && seen != Running then Created
                                         else seen
    ensures id !in d.records || !live ==> d' == d
  {
    if id in d.records {
      var s := if id in d.running then Running else seen;
      if !((d.records[id].state == Created && s != Running) || d.records[id].state == s) {
        Persisted(d, d.records[id].(state := s), live, d');
      }
    }
  }

  /** A network is added under any name but the empty one and, in any case, "host" and "none". */
  lemma NetworkRecords(d: Daemon, network: string, ok: bool)
    ensures CreateNetworkStep(d, network)
         == if network == "" || Lower(network) in {"host", "none"} then d
            else d.(networks := d.networks + {network})
    ensures RemoveNetworkStep(d, network, ok)
         == if ok && (forall a <- d.attachments :: a.network != network)
            then d.(networks := d.networks - {network}) else d
  {
  }
}
