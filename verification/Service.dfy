/** The service and the network adapter as objects, sharing one allocator. */
module Service {
  import opened Bytes
  import opened Text
  import opened PortMap
  import opened PortBatch
  import opened PortAllocators
  import opened Domain
  import opened ContainerRegistry
  import opened Lifecycle
  import opened Ownership
  import opened Records

  /** The CNI adapter: configured networks and the attachments to undo later. */
  class Adapter {
    const alloc: PortAllocator
    var attachments: map<AttachmentKey, AttachmentState>
    var networks: set<string>

    constructor (alloc: PortAllocator, networks: set<string>)
      ensures this.alloc == alloc && attachments == map[] && this.networks == networks
    {
      this.alloc := alloc;
      attachments := map[];
      this.networks := networks;
    }

    /** Joins a container to a network with ports its caller has reserved; a failure leaves them reserved. */
    method ConnectReserved(c: Container, network: string, env: StartEnv, ghost d: Daemon) returns (ok: bool)
      requires d.used == alloc.used && d.networks == networks
      modifies this`attachments
      ensures ok == Connects(d, c, network, env)
      ensures attachments == if ok then old(attachments)[AttachmentKey(c.id, network) :=
                               AttachmentState(AdoptResult(d.used, c.portBindings).value, c.portBindings)]
                             else old(attachments)
    {
      var adopted := alloc.AdoptBindings(c.portBindings);
      ok := adopted.Ok? && network in networks && BuildPortMappings(c.portBindings).Ok? && env.cniOk;
      if ok {
        attachments := attachments[AttachmentKey(c.id, network) := AttachmentState(adopted.value, c.portBindings)];
      }
    }

    /**
     Detaches one container from one network, releasing what the attachment holds whatever CNI DEL says. A
     network that does not resolve, or not under the request's context, is left alone.
     */
    method Disconnect(key: AttachmentKey, resolves: bool)
      requires key in attachments
      modifies this`attachments, alloc
      ensures !(key.network in networks && resolves) ==>
                attachments == old(attachments) && alloc.used == old(alloc.used)
      ensures key.network in networks && resolves ==>
                && attachments == old(attachments) - {key}
                && alloc.used == old(alloc.used) - Held(old(attachments)[key])
    {
      if key.network in networks && resolves {
        var state := attachments[key];
        attachments := attachments - {key};
        alloc.Release(state.allocations);
      }
    }

    /** Detaches a container from every network it is tracked on and that resolves. */
    method DisconnectAll(id: ContainerID, reached: set<string>, ghost d: Daemon)
      requires d.used == alloc.used && d.attachments == attachments && d.networks == networks
      modifies this`attachments, alloc
      ensures alloc.used == Lifecycle.DisconnectAll(d, id, reached).used
      ensures attachments == Lifecycle.DisconnectAll(d, id, reached).attachments
    {
      var todo := set a | a in attachments && a.container == id;
      ghost var all := todo;
      while todo != {}
        invariant todo <= all
        invariant forall a <- todo :: a in attachments && attachments[a] == d.attachments[a]
        invariant attachments == Kept(d, all - todo, reached)
        invariant alloc.used == d.used - FreedFrom(d, all - todo, reached)
        decreases todo
      {
        var key :| key in todo;
        DisconnectStep(d, all - todo, key, reached);
        assert all - todo + {key} == all - (todo - {key});
        Disconnect(key, key.network in reached);
        todo := todo - {key};
      }
      assert all - todo == all;
      FreedFromAll(d, id, all, reached);
    }
  }

  ghost function FreedFrom(d: Daemon, keys: set<AttachmentKey>, reached: set<string>): set<PortKey> {
    set a, k | a in keys && a in d.attachments && a.network in d.networks && a.network in reached
               && k in Held(d.attachments[a]) :: k
  }

  ghost function Kept(d: Daemon, keys: set<AttachmentKey>, reached: set<string>): map<AttachmentKey, AttachmentState> {
    map a | a in d.attachments && !(a in keys && a.network in d.networks && a.network in reached) :: d.attachments[a]
  }

  lemma DisconnectStep(d: Daemon, keys: set<AttachmentKey>, key: AttachmentKey, reached: set<string>)
    requires key in d.attachments
    ensures key.network in d.networks && key.network in reached ==>
              && Kept(d, keys + {key}, reached) == Kept(d, keys, reached) - {key}
              && FreedFrom(d, keys + {key}, reached) == FreedFrom(d, keys, reached) + Held(d.attachments[key])
    ensures !(key.network in d.networks && key.network in reached) ==>
              && Kept(d, keys + {key}, reached) == Kept(d, keys, reached)
              && FreedFrom(d, keys + {key}, reached) == FreedFrom(d, keys, reached)
  {
  }

  lemma FreedFromAll(d: Daemon, id: ContainerID, all: set<AttachmentKey>, reached: set<string>)
    requires all == set a | a in d.attachments && a.container == id
    ensures FreedFrom(d, all, reached) == FreedBy(d, id, reached)
    ensures Kept(d, all, reached) == Lifecycle.DisconnectAll(d, id, reached).attachments
  {
    forall k
      ensures k in FreedFrom(d, all, reached) <==> k in FreedBy(d, id, reached)
    {
      if k in FreedFrom(d, all, reached) {
        var a :| a in all && a in d.attachments && a.network in d.networks && a.network in reached
                 && k in Held(d.attachments[a]);
      }
      if k in FreedBy(d, id, reached) {
        var a :| a in d.attachments && a.container == id && a.network in d.networks && a.network in reached
                 && k in ReleasedKeys(d.attachments[a].allocations);
        assert a in all && k in Held(d.attachments[a]);
      }
    }
  }

  function Reservations(bindings: seq<PortBinding>): seq<PortAllocation> {
    if bindings == [] then []
    else [PortAllocation(bindings[0].protocol, bindings[0].hostIP, bindings[0].hostPort)] + Reservations(bindings[1..])
  }

  /** Releasing the reservations of bindings frees the bindings' keys. */
  lemma {:induction false} ReservationKeys(bindings: seq<PortBinding>)
    ensures ReleasedKeys(Reservations(bindings)) == BindingKeys(bindings)
  {
    if bindings != [] {
      ReservationKeys(bindings[1..]);
      assert Reservations(bindings)[1..] == Reservations(bindings[1..]);
    }
  }

  /** From a state with ports owned, they stay owned and releasable exactly if the step is none of the disrupting ones. */
  ghost predicate Accounts(cfg: Config, d: Daemon, op: Op, d': Daemon) {
    Inv(cfg, d) && Possible(d, op) ==> (Inv(cfg, d') <==> !Disrupts(cfg, d, op))
  }

  lemma StepAccounts(cfg: Config, d: Daemon, op: Op, d': Daemon)
    requires d' == Step(cfg, d, op)
    ensures Accounts(cfg, d, op, d')
  {
    if Inv(cfg, d) && Possible(d, op) {
      StepKeepsOwnership(cfg, d, op, d');
    }
  }

  /** If the container joins a network when it starts, an attachment there holds all its ports. */
  ghost predicate HoldsPorts(d: Daemon, c: Container) {
    NeedsNetwork(c) ==>
      var key := AttachmentKey(c.id, c.networks[0]);
      key in d.attachments && Held(d.attachments[key]) == Keys(c)
  }

  /** What a task that was started leaves on record. */
  lemma StartOutcome(cfg: Config, d: Daemon, id: ContainerID, env: StartEnv, d': Daemon)
    requires Inv(cfg, d) && id in d.records && id !in d.running && env.taskStarted && env.live
    requires d' == StartStep(cfg, d, id, env)
    ensures CanJoin(d, d.records[id], env) && !env.exits ==>
              id in d'.records && d'.records[id].state == Running && id in d'.running && HoldsPorts(d', d.records[id])
    ensures env.exits && env.seen in {Exited, Dead} ==>
              id in d'.records && d'.records[id].state == env.seen && id !in d'.running
  {
    if CanJoin(d, d.records[id], env) {
      StartRecords(cfg, d, id, env, d');
    } else {
      FailedStartRecords(cfg, d, id, env, d');
    }
  }

  /** A removal in which nothing goes wrong takes exactly the container and its ports. */
  lemma SmoothRemoval(cfg: Config, d: Daemon, id: ContainerID, env: RemoveEnv, d': Daemon)
    requires Inv(cfg, d) && Smooth(d, RemoveContainer(id, env)) && RemoveProceeds(d, id, env)
    requires d' == RemoveStep(d, id, env)
    ensures d'.records == d.records - {id} && d'.used == d.used - Keys(d.records[id])
  {
    SmoothKeeps(cfg, d, RemoveContainer(id, env));
    RemovalShape(cfg, d, id, env, if env.stopOk then d.(running := d.running - {id}) else d, d');
  }

  class ContainerService {
    const alloc: PortAllocator
    const adapter: Adapter
    const registry: Registry
    var running: set<ContainerID>

    constructor (alloc: PortAllocator, adapter: Adapter, registry: Registry)
      requires adapter.alloc == alloc && registry.Valid() && Safe(alloc.cfg, alloc.used)
      ensures this.alloc == alloc && this.adapter == adapter && this.registry == registry
      ensures running == {} && Valid()
    {
      this.alloc, this.adapter, this.registry := alloc, adapter, registry;
      running := {};
    }

    ghost predicate Valid()
      reads this, alloc, adapter, registry
    {
      adapter.alloc == alloc && registry.Valid() && Safe(alloc.cfg, alloc.used)
    }

    ghost function View(): Daemon
      reads this, alloc, adapter, registry
    {
      Daemon(alloc.used, registry.byID, adapter.attachments, adapter.networks, running)
    }

    method ReleaseBindings(bindings: seq<PortBinding>)
      requires Valid()
      modifies alloc
      ensures Valid() && alloc.used == old(alloc.used) - BindingKeys(bindings)
    {
      ReservationKeys(bindings);
      if |bindings| > 0 {
        alloc.Release(Reservations(bindings));
      }
    }

    method Persist(c: Container, live: bool)
      requires Valid()
      modifies registry
      ensures Valid() && View() == Lifecycle.Persist(old(View()), c, live)
      ensures old(Inv(alloc.cfg, View()) && SameOwner(View(), c)) ==> Inv(alloc.cfg, View())
    {
      ghost var d := View();
      var err := registry.Save(c, live);
      if Inv(alloc.cfg, d) && SameOwner(d, c) {
        PersistKeeps(alloc.cfg, d, c, live);
      }
    }

    /**
     A created container owns exactly the ports that were reserved for it, one for each requested; a refused
     request leaves no record and, its labels being fine, no reservation.
     */
    method ContainerCreate(req: CreateRequest, env: CreateEnv) returns (id: Option<ContainerID>)
      requires Valid()
      modifies alloc, adapter, registry
      ensures Valid() && View() == CreateStep(alloc.cfg, old(View()), req, env)
      ensures id.Some? ==>
                && id == env.runtimeID && id.value in registry.byID
                && registry.byID == old(registry.byID)[id.value := registry.byID[id.value]]
                && alloc.used == old(alloc.used) + Keys(registry.byID[id.value])
                && Keys(registry.byID[id.value]) !! old(alloc.used)
                && |registry.byID[id.value].portBindings| == |req.ports|
      ensures id.None? ==> registry.byID == old(registry.byID) && (env.labelsOk ==> alloc.used == old(alloc.used))
      ensures (env.runtimeID.Some? ==> env.runtimeID.value !in old(registry.byID)) ==>
                && (id.Some? <==> Creates(alloc.cfg, old(View()), req, env))
                && (id.Some? ==> CreatedAs(registry.byID[id.value], req))
      ensures Accounts(alloc.cfg, old(View()), Create(req, env), View())
    {
      StepAccounts(alloc.cfg, View(), Create(req, env), CreateStep(alloc.cfg, View(), req, env));
      if env.runtimeID.Some? ==> env.runtimeID.value !in registry.byID {
        CreateRecords(alloc.cfg, View(), req, env, CreateStep(alloc.cfg, View(), req, env));
      }
      id := CreateContainer(req, env);
    }

    method CreateContainer(req: CreateRequest, env: CreateEnv) returns (id: Option<ContainerID>)
      requires Valid()
      modifies alloc, adapter, registry
      ensures Valid() && View() == CreateStep(alloc.cfg, old(View()), req, env)
      ensures id.Some? ==>
                && id == env.runtimeID && id.value in registry.byID
                && registry.byID == old(registry.byID)[id.value := registry.byID[id.value]]
                && alloc.used == old(alloc.used) + Keys(registry.byID[id.value])
                && Keys(registry.byID[id.value]) !! old(alloc.used)
                && |registry.byID[id.value].portBindings| == |req.ports|
      ensures id.None? ==> registry.byID == old(registry.byID) && (env.labelsOk ==> alloc.used == old(alloc.used))
    {
      id := None;
      var existing := registry.GetByName(req.name);
      assert existing.Some? <==> NameTaken(registry.byID, req.name, "");
      if !env.accepted || existing.Some? {
        return;
      }
      if req.mode == NetworkMode(DEFAULT_NETWORK) {
        adapter.networks := adapter.networks + {DEFAULT_NETWORK};
      }
      if req.mode.NetworkMode? && req.mode.network !in adapter.networks {
        return;
      }
      var ports := PrepareBindings(req, env.probes);
      if ports.Some? {
        id := Register(req, ports.value, env);
      }
    }

    /** Reserves a host port for each requested binding, or none. */
    method PrepareBindings(req: CreateRequest, probes: nat -> Probe) returns (ports: Option<seq<PortBinding>>)
      requires Valid()
      modifies alloc
      ensures Valid()
      ensures req.ports == [] ==> ports == Some([]) && alloc.used == old(alloc.used)
      ensures req.ports != [] && req.mode.NetworkMode? ==>
                var out := Batch(alloc.cfg, old(alloc.used), req.ports, probes, NO_RIVALS);
                && alloc.used == out.shared.Used()
                && ports == if out.result.Ok? then Some(out.result.value.bindings) else None
      ensures req.ports != [] && !req.mode.NetworkMode? ==> ports.None?
      ensures ports.None? ==> alloc.used == old(alloc.used)
      ensures ports.Some? ==>
                && alloc.used == old(alloc.used) + BindingKeys(ports.value)
                && BindingKeys(ports.value) !! old(alloc.used) && |ports.value| == |req.ports|
    {
      if req.ports == [] {
        return Some([]);
      }
      if !req.mode.NetworkMode? {
        return None;
      }
      BatchEffect(alloc.cfg, alloc.used, req.ports, probes);
      var filled := alloc.AllocateBindings(req.ports, probes, NO_RIVALS);
      ports := if filled.Ok? then Some(filled.value.bindings) else None;
    }

    /** The rest of a create, once its ports are reserved. */
    method Register(req: CreateRequest, ports: seq<PortBinding>, env: CreateEnv) returns (id: Option<ContainerID>)
      requires Valid()
      modifies alloc, registry
      ensures Valid() && View() == Lifecycle.Register(old(View()), req, ports, env)
      ensures id.Some? ==>
                && id == env.runtimeID && id.value in registry.byID && alloc.used == old(alloc.used)
                && registry.byID == old(registry.byID)[id.value := registry.byID[id.value]]
                && registry.byID[id.value].portBindings == ports
      ensures id.None? ==>
                && registry.byID == old(registry.byID)
                && (env.labelsOk ==> alloc.used == old(alloc.used) - BindingKeys(ports))
    {
      id := None;
      if !env.labelsOk {
        return;
      }
      if env.runtimeID.None? {
        ReleaseBindings(ports);
        return;
      }
      var err := registry.Save(NewRecord(env.runtimeID.value, req, ports), env.live);
      if err.Some? {
        ReleaseBindings(ports);
        return;
      }
      id := env.runtimeID;
    }

    method ContainerStart(id: ContainerID, env: StartEnv)
      requires Valid()
      modifies this, alloc, adapter, registry
      ensures Valid() && View() == StartStep(alloc.cfg, old(View()), id, env)
      ensures (&& old(Inv(alloc.cfg, View())) && id in old(registry.byID)
               && JoinFails(old(View()), old(registry.byID)[id], env) && !env.exits && env.stopOk) ==>
                View() == old(View())
      ensures (&& old(Inv(alloc.cfg, View())) && id in old(registry.byID) && id !in old(running) && env.taskStarted
               && CanJoin(old(View()), old(registry.byID)[id], env) && env.live && !env.exits) ==>
                && id in registry.byID && registry.byID[id].state == Running && id in running
                && HoldsPorts(View(), old(registry.byID)[id])
      ensures (&& old(Inv(alloc.cfg, View())) && id in old(registry.byID) && id !in old(running) && env.taskStarted
               && env.live && env.exits && env.seen in {Exited, Dead}) ==>
                id in registry.byID && registry.byID[id].state == env.seen && id !in running
      ensures Accounts(alloc.cfg, old(View()), Start(id, env), View())
    {
      StartLeavesNoTrace(env, id);
      StepAccounts(alloc.cfg, View(), Start(id, env), StartStep(alloc.cfg, View(), id, env));
      if Inv(alloc.cfg, View()) && id in registry.byID && id !in running && env.taskStarted && env.live {
        StartOutcome(alloc.cfg, View(), id, env, StartStep(alloc.cfg, View(), id, env));
      }
      StartTask(id, env);
    }

    /** Starts the task, joins the network and persists what became of it. */
    method StartTask(id: ContainerID, env: StartEnv)
      requires Valid()
      modifies this, alloc, adapter, registry
      ensures Valid() && View() == StartStep(alloc.cfg, old(View()), id, env)
    {
      var found := registry.Get(id, true);
      if found.Absent? || id in running || !env.taskStarted {
        return;
      }
      var c := found.container;
      ghost var d := View();
      assert c.id == id;
      running := running + {id};
      var joined := JoinNetwork(c, env, d);
      if !joined && !env.exits {
        if env.stopOk {
          running := running - {id};
        }
        return;
      }
      if !joined {
        ReleaseBindings(c.portBindings);
      }
      if env.exits {
        running := running - {id};
      }
      FinishStart(c, joined, env);
    }

    /** A start whose join fails and whose task is stopped changes nothing, so a retry finds the same ports. */
    lemma StartLeavesNoTrace(env: StartEnv, id: ContainerID)
      ensures (&& Inv(alloc.cfg, View()) && id in registry.byID && JoinFails(View(), registry.byID[id], env)
               && !env.exits && env.stopOk) ==>
                StartStep(alloc.cfg, View(), id, env) == View()
    {
      var d := View();
      if Inv(alloc.cfg, d) && id in d.records && id !in d.running && env.taskStarted && JoinFails(d, d.records[id], env) {
        FailedJoin(alloc.cfg, d, id, env, StartStep(alloc.cfg, d, id, env));
      }
    }

    /** Joins the container's network, restoring its reservations if that fails. */
    method JoinNetwork(c: Container, env: StartEnv, ghost before: Daemon) returns (ok: bool)
      requires Valid() && before.(running := running) == View()
      modifies alloc, adapter
      ensures Valid() && ok == !JoinFails(before, c, env)
      ensures View() == Join(alloc.cfg, old(View()), c, env)
    {
      var network := Attachable(c);
      if network.None? {
        return true;
      }
      if !env.pidOk {
        return false;
      }
      ok := adapter.ConnectReserved(c, network.value, env, View());
      if !ok && c.portBindings != [] {
        BatchEffect(alloc.cfg, alloc.used, c.portBindings, env.probes);
        var restored := alloc.AllocateBindings(c.portBindings, env.probes, NO_RIVALS);
      }
    }

    method FinishStart(c: Container, joined: bool, env: StartEnv)
      requires Valid()
      modifies registry
      ensures Valid() && View() == Lifecycle.FinishStart(old(View()), c, joined, env)
      ensures old(Inv(alloc.cfg, View()) && c.id in registry.byID && c == registry.byID[c.id] && Covered(View(), c)) ==>
                && Inv(alloc.cfg, View()) && registry.byID[c.id].portBindings == c.portBindings
                && Attachable(registry.byID[c.id]) == Attachable(c)
      ensures (&& c.id in old(registry.byID) && c.name == old(registry.byID)[c.id].name && env.live) ==>
                && c.id in registry.byID
                && registry.byID[c.id].state
                   == if c.id in running || env.seen in {Running, Created, Unknown} then Running else env.seen
    {
      FinishIsSafe(c, joined, env);
      if c.id in registry.byID && c.name == registry.byID[c.id].name {
        ghost var c' := FinishedFields(View(), c, joined, env);
        Persisted(View(), c', env.live, Lifecycle.FinishStart(View(), c, joined, env));
      }
      if c.id !in running && env.seen !in {Running, Created, Unknown} {
        Persist(c.(state := env.seen), env.live);
      } else {
        var network := Attachable(c);
        var networks := if joined && network.Some? then [network.value] else c.networks;
        Persist(c.(networks := networks, state := Running), env.live);
      }
    }

    /** What a start leaves behind is as safe as before, and the next start joins the same network. */
    lemma FinishIsSafe(c: Container, joined: bool, env: StartEnv)
      requires registry.Valid()
      ensures var d, d' := View(), Lifecycle.FinishStart(View(), c, joined, env);
        Inv(alloc.cfg, d) && c.id in d.records && c == d.records[c.id] && Covered(d, c) ==>
          && Inv(alloc.cfg, d') && c.id in d'.records && d'.records[c.id].portBindings == c.portBindings
          && Attachable(d'.records[c.id]) == Attachable(c)
    {
      var d, d' := View(), Lifecycle.FinishStart(View(), c, joined, env);
      if Inv(alloc.cfg, d) && c.id in d.records && c == d.records[c.id] && Covered(d, c) {
        FinishKeeps(alloc.cfg, d, c, joined, env, d');
        var c' := FinishedRecord(d, c, joined, env);
        PersistEffect(d, c', env.live);
      }
    }

    /** Stopping keeps the ports of every container, and a stopped container is recorded as exited. */
    method ContainerStop(id: ContainerID, stopOk: bool, live: bool)
      requires Valid()
      modifies this, registry
      ensures Valid() && View() == StopStep(old(View()), id, stopOk, live)
      ensures SameKeys(old(View()), View())
      ensures (stopOk && live && id in old(registry.byID) && old(registry.byID)[id].state != Created) ==>
                registry.byID[id].state == Exited && id !in running
      ensures OnlyRecord(old(View()), View(), id)
      ensures old(Inv(alloc.cfg, View())) ==> Inv(alloc.cfg, View())
    {
      ghost var d := View();
      StepAccounts(alloc.cfg, d, Stop(id, stopOk, live), StopStep(d, id, stopOk, live));
      StopRecords(d, id, stopOk, live, StopStep(d, id, stopOk, live));
      StopTask(id, stopOk, live);
    }

    method StopTask(id: ContainerID, stopOk: bool, live: bool)
      requires Valid()
      modifies this, registry
      ensures Valid() && View() == StopStep(old(View()), id, stopOk, live)
    {
      var found := registry.Get(id, true);
      if found.Absent? || found.container.state == Created || !stopOk {
        return;
      }
      running := running - {id};
      Persist(found.container.(state := Exited), live);
    }

    method ContainerRemove(id: ContainerID, env: RemoveEnv)
      requires Valid()
      modifies this, alloc, adapter, registry
      ensures Valid() && View() == RemoveStep(old(View()), id, env)
      ensures (!env.force && (id in old(running) || env.seen in {Running, Paused, Restarting})) ==> View() == old(View())
      ensures Accounts(alloc.cfg, old(View()), RemoveContainer(id, env), View())
      ensures old(Inv(alloc.cfg, View()) && Smooth(View(), RemoveContainer(id, env)) && RemoveProceeds(View(), id, env)) ==>
                && registry.byID == old(registry.byID) - {id}
                && alloc.used == old(alloc.used) - Keys(old(registry.byID)[id])
    {
      ghost var d, op := View(), RemoveContainer(id, env);
      StepAccounts(alloc.cfg, d, op, RemoveStep(d, id, env));
      if Inv(alloc.cfg, d) && Smooth(d, op) && RemoveProceeds(d, id, env) {
        SmoothRemoval(alloc.cfg, d, id, env, RemoveStep(d, id, env));
      }
      RemoveInOrder(id, env);
    }

    /** Stop, disconnect, release, runtime and registry, in this order. */
    method RemoveInOrder(id: ContainerID, env: RemoveEnv)
      requires Valid()
      modifies this, alloc, adapter, registry
      ensures Valid() && View() == RemoveStep(old(View()), id, env)
    {
      var found := registry.Get(id, true);
      if found.Absent? || !env.statusOk {
        return;
      }
      var c := found.container;
      if !env.force && (id in running || env.seen in {Running, Paused, Restarting}) {
        return;
      }
      if env.stopOk {
        running := running - {id};
      }
      adapter.DisconnectAll(id, env.reached, View());
      if c.state == Created {
        ReleaseBindings(c.portBindings);
      }
      if env.runtimeOk {
        running := running - {id};
        var err := registry.Remove(id, env.live);
      }
    }

    method ConnectNetwork(id: ContainerID, network: string, ok: bool, live: bool)
      requires Valid()
      modifies adapter, registry
      ensures Valid() && View() == ConnectStep(old(View()), id, network, ok, live)
      ensures SameKeys(old(View()), View())
      ensures (&& id in old(registry.byID) && id in running && ok && live
               && (network in {"", "host", "none"} || network in adapter.networks)) ==>
                && id in registry.byID && network in registry.byID[id].networks
                && old(registry.byID)[id].networks <= registry.byID[id].networks
                && registry.byID[id].state == old(registry.byID)[id].state
      ensures OnlyRecord(old(View()), View(), id)
      ensures Accounts(alloc.cfg, old(View()), NetworkConnect(id, network, ok, live), View())
    {
      ghost var d := View();
      StepAccounts(alloc.cfg, d, NetworkConnect(id, network, ok, live), ConnectStep(d, id, network, ok, live));
      ConnectRecords(d, id, network, ok, live, ConnectStep(d, id, network, ok, live));
      AttachRunning(id, network, ok, live);
    }

    method AttachRunning(id: ContainerID, network: string, ok: bool, live: bool)
      requires Valid()
      modifies adapter, registry
      ensures Valid() && View() == ConnectStep(old(View()), id, network, ok, live)
    {
      var found := registry.Get(id, true);
      if found.Absent? || id !in running || !ok {
        return;
      }
      var c := found.container;
      if !IsHostOrNone(network) {
        if network !in adapter.networks {
          return;
        }
        adapter.attachments := adapter.attachments[AttachmentKey(id, network) := AttachmentState([], [])];
      }
      Persist(c.(networks := Upsert(c.networks, network)), live);
    }

    method ContainerInspect(id: ContainerID, seen: ContainerState, live: bool)
      requires Valid()
      modifies registry
      ensures Valid() && View() == RefreshStep(old(View()), id, seen, live)
      ensures SameKeys(old(View()), View())
      ensures (id in old(registry.byID) && old(registry.byID)[id].state == Created && registry.byID[id].state != Created) ==>
                id in running || seen == Running
      ensures id in old(registry.byID) && live ==>
                && id in registry.byID
                && registry.byID[id].state == if id in running then Running
                                              else if old(registry.byID)[id].state == Created && seen != Running then Created
                                              else seen
      ensures OnlyRecord(old(View()), View(), id)
      ensures old(Inv(alloc.cfg, View())) && seen != Running ==> Inv(alloc.cfg, View())
    {
      ghost var d := View();
      StepAccounts(alloc.cfg, d, Inspect(id, seen, live), RefreshStep(d, id, seen, live));
      InspectRecordsState(d, id, seen, live, RefreshStep(d, id, seen, live));
      Refresh(id, seen, live);
    }

    /** Merges the runtime's state into a record, keeping the created state of a task that never started. */
    method Refresh(id: ContainerID, seen: ContainerState, live: bool)
      requires Valid()
      modifies registry
      ensures Valid() && View() == RefreshStep(old(View()), id, seen, live)
    {
      var found := registry.Get(id, true);
      if found.Absent? {
        return;
      }
      var c := found.container;
      var s := if id in running then Running else seen;
      if (c.state == Created && s != Running) || c.state == s {
        return;
      }
      Persist(c.(state := s), live);
    }

    /** A task that ends by itself. */
    method TaskExit(id: ContainerID)
      requires Valid()
      modifies this
      ensures Valid() && View() == old(View()).(running := old(running) - {id})
      ensures old(Inv(alloc.cfg, View())) ==> Inv(alloc.cfg, View())
    {
      StepAccounts(alloc.cfg, View(), Op.TaskExit(id), View().(running := running - {id}));
      running := running - {id};
    }

    method CreateNetwork(network: string)
      requires Valid()
      modifies adapter
      ensures Valid() && View() == CreateNetworkStep(old(View()), network)
      ensures adapter.networks == if network == "" || Lower(network) in {"host", "none"} then old(adapter.networks)
                                  else old(adapter.networks) + {network}
      ensures old(Inv(alloc.cfg, View())) ==> Inv(alloc.cfg, View())
    {
      StepAccounts(alloc.cfg, View(), Op.CreateNetwork(network), CreateNetworkStep(View(), network));
      if network != "" && Lower(network) != "host" && Lower(network) != "none" {
        adapter.networks := adapter.networks + {network};
      }
    }

    /** A network with a tracked attachment stays. */
    method RemoveNetwork(network: string, ok: bool)
      requires Valid()
      modifies adapter
      ensures Valid() && View() == RemoveNetworkStep(old(View()), network, ok)
      ensures forall a <- adapter.attachments :: a.network in old(adapter.networks) ==> a.network in adapter.networks
      ensures old(Inv(alloc.cfg, View())) ==> Inv(alloc.cfg, View())
    {
      StepAccounts(alloc.cfg, View(), Op.RemoveNetwork(network, ok), RemoveNetworkStep(View(), network, ok));
      if ok && !exists a <- adapter.attachments :: a.network == network {
        adapter.networks := adapter.networks - {network};
      }
    }

    method Perform(op: Op)
      requires Valid()
      modifies this, alloc, adapter, registry
      ensures Valid() && View() == Step(alloc.cfg, old(View()), op)
    {
      match op {
        case Create(req, env) => var id := ContainerCreate(req, env);
        case Start(id, env) => ContainerStart(id, env);
        case Stop(id, stopOk, live) => ContainerStop(id, stopOk, live);
        case RemoveContainer(id, env) => ContainerRemove(id, env);
        case NetworkConnect(id, network, ok, live) => ConnectNetwork(id, network, ok, live);
        case Inspect(id, seen, live) => ContainerInspect(id, seen, live);
        case TaskExit(id) => TaskExit(id);
        case CreateNetwork(network) => CreateNetwork(network);
        case RemoveNetwork(network, ok) => RemoveNetwork(network, ok);
      }
    }

    /**
     Any sequence of calls on the objects is the run of the protocol; if nothing in it disrupts ownership,
     the allocator ends up holding exactly the disjoint union of the registered containers' bindings.
     */
    method Run(ops: seq<Op>)
      requires Valid()
      modifies this, alloc, adapter, registry
      ensures Valid() && View() == RunOps(alloc.cfg, old(View()), ops)
      ensures old(Inv(alloc.cfg, View())) && Undisrupted(alloc.cfg, old(View()), ops) ==> Owned(View())
    {
      var i := 0;
      assert ops[0..] == ops;
      while i < |ops|
        invariant 0 <= i <= |ops| && Valid()
        invariant RunOps(alloc.cfg, old(View()), ops) == RunOps(alloc.cfg, View(), ops[i..])
      {
        assert ops[i..][1..] == ops[i + 1..];
        Perform(ops[i]);
        i := i + 1;
      }
      if old(Inv(alloc.cfg, View())) && Undisrupted(alloc.cfg, old(View()), ops) {
        RunsKeepOwnership(alloc.cfg, old(View()), ops);
      }
    }
  }
}
