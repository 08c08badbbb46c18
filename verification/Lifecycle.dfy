/**
 Who owns a host port: the protocol of container create, start, stop and remove over the shared allocator,
 the registry and the network adapter's attachments.
 */
module Lifecycle {
  import opened Bytes
  import opened Text
  import opened PortMap
  import opened PortBatch
  import opened Domain
  import opened ContainerRegistry

  datatype AttachmentKey = AttachmentKey(container: ContainerID, network: string)

  datatype AttachmentState = AttachmentState(allocations: seq<PortAllocation>, ports: seq<PortBinding>)

  /** The daemon: reserved ports, registered containers, tracked attachments, configured networks, live tasks. */
  datatype Daemon = Daemon(
    used: set<PortKey>,
    records: Directory,
    attachments: map<AttachmentKey, AttachmentState>,
    networks: set<string>,
    running: set<ContainerID>)

  const DEFAULT_NETWORK := "bridge"

  /** How a container joins a network, a named network having been resolved. */
  datatype Mode = HostMode | NoneMode | NetworkMode(network: string)

  function ModeNetworkName(m: Mode): string {
    match m
    case HostMode => "host"
    case NoneMode => "none"
    case NetworkMode(n) => n
  }

  // ---------------------------------------------------------------------------------------------
  // Create
  // ---------------------------------------------------------------------------------------------

  datatype CreateRequest = CreateRequest(name: string, image: string, mode: Mode, ports: seq<PortBinding>)

  /** What the surroundings decide during a create: earlier checks, probes, the runtime's new ID, the context. */
  datatype CreateEnv = CreateEnv(
    accepted: bool,
    probes: nat -> Probe,
    labelsOk: bool,
    runtimeID: Option<ContainerID>,
    live: bool)

  function NewRecord(id: ContainerID, req: CreateRequest, ports: seq<PortBinding>): Container {
    Container(id, req.name, req.image, req.image, Created, 0, 0, false, false, "", 0, 0, ports,
              [ModeNetworkName(req.mode)])
  }

  /** Creating the default network on demand. */
  function EnsureNetwork(d: Daemon, m: Mode): Daemon {
    if m == NetworkMode(DEFAULT_NETWORK) then d.(networks := d.networks + {DEFAULT_NETWORK}) else d
  }

  predicate Refused(d: Daemon, req: CreateRequest) {
    || (req.mode.NetworkMode? && req.mode.network !in d.networks)
    || (req.ports != [] && !req.mode.NetworkMode?)
  }

  /** From the point where the ports are reserved. */
  function Register(d: Daemon, req: CreateRequest, ports: seq<PortBinding>, env: CreateEnv): Daemon {
    if !env.labelsOk then d
    else if env.runtimeID.None? then d.(used := d.used - BindingKeys(ports))
    else
      var saved := SaveSpec(d.records, NewRecord(env.runtimeID.value, req, ports), env.live);
      if saved.error.Some? then d.(used := d.used - BindingKeys(ports)) else d.(records := saved.directory)
  }

  function CreateStep(cfg: Config, d: Daemon, req: CreateRequest, env: CreateEnv): Daemon {
    if !env.accepted || NameTaken(d.records, req.name, "") then d
    else
      var ready := EnsureNetwork(d, req.mode);
      if Refused(ready, req) then ready
      else if req.ports == [] then Register(ready, req, [], env)
      else
        var out := Batch(cfg, ready.used, req.ports, env.probes, NO_RIVALS);
        var after := ready.(used := out.shared.Used());
        if out.result.Fails? then after else Register(after, req, out.result.value.bindings, env)
  }

  // ---------------------------------------------------------------------------------------------
  // Start
  // ---------------------------------------------------------------------------------------------

  /** The task starting, joining its network, exiting early, being stopped, and the state reported for it. */
  datatype StartEnv = StartEnv(
    taskStarted: bool,
    pidOk: bool,
    cniOk: bool,
    probes: nat -> Probe,
    exits: bool,
    stopOk: bool,
    seen: ContainerState,
    live: bool)

  predicate IsHostOrNone(name: string) {
    name == "" || name == "host" || name == "none"
  }

  /** The network a container joins through CNI. */
  function Attachable(c: Container): Option<string> {
    if c.networks == [] || IsHostOrNone(c.networks[0]) then None else Some(c.networks[0])
  }

  /** Re-reserving after a failed join; the ports it finds reserved make it fail without a trace. */
  function Restored(cfg: Config, used: set<PortKey>, ports: seq<PortBinding>, probes: nat -> Probe): set<PortKey> {
    if ports == [] then used else Batch(cfg, used, ports, probes, NO_RIVALS).shared.Used()
  }

  predicate Connects(d: Daemon, c: Container, network: string, env: StartEnv) {
    && AdoptResult(d.used, c.portBindings).Ok?
    && network in d.networks && BuildPortMappings(c.portBindings).Ok? && env.cniOk
  }

  predicate JoinFails(d: Daemon, c: Container, env: StartEnv) {
    Attachable(c).Some? && (!env.pidOk || !Connects(d, c, Attachable(c).value, env))
  }

  /** The daemon after trying to join. */
  function Join(cfg: Config, d: Daemon, c: Container, env: StartEnv): Daemon {
    var network := Attachable(c);
    if network.None? || !env.pidOk then d
    else if !Connects(d, c, network.value, env) then
      d.(used := Restored(cfg, d.used, c.portBindings, env.probes))
    else
      d.(attachments := d.attachments[AttachmentKey(c.id, network.value) :=
           AttachmentState(AdoptResult(d.used, c.portBindings).value, c.portBindings)])
  }

  function Persist(d: Daemon, c: Container, live: bool): Daemon {
    d.(records := SaveSpec(d.records, c, live).directory)
  }

  /** Persisting an early exit, or the running state with the joined network. */
  function FinishStart(d: Daemon, c: Container, joined: bool, env: StartEnv): Daemon {
    if c.id !in d.running && env.seen !in {Running, Created, Unknown} then Persist(d, c.(state := env.seen), env.live)
    else
      var network := Attachable(c);
      var networks := if joined && network.Some? then [network.value] else c.networks;
      Persist(d, c.(networks := networks, state := Running), env.live)
  }

  function StartStep(cfg: Config, d: Daemon, id: ContainerID, env: StartEnv): Daemon {
    if id !in d.records || id in d.running || !env.taskStarted then d
    else
      var c := d.records[id];
      var d' := Join(cfg, d.(running := d.running + {id}), c, env);
      if !JoinFails(d, c, env) then
        FinishStart(if env.exits then d'.(running := d'.running - {id}) else d', c, true, env)
      else if env.exits then
        FinishStart(d'.(used := d'.used - BindingKeys(c.portBindings), running := d'.running - {id}), c, false, env)
      else if env.stopOk then d'.(running := d'.running - {id})
      else d'
  }

  // ---------------------------------------------------------------------------------------------
  // Stop, remove and the rest
  // ---------------------------------------------------------------------------------------------

  function StopStep(d: Daemon, id: ContainerID, stopOk: bool, live: bool): Daemon {
    if id !in d.records || d.records[id].state == Created || !stopOk then d
    else Persist(d.(running := d.running - {id}), d.records[id].(state := Exited), live)
  }

  /**
   What removal meets: the runtime's status, the networks it can still resolve when it disconnects (none
   once the context has ended), the removal call, and the context at the registry's call.
   */
  datatype RemoveEnv = RemoveEnv(
    statusOk: bool,
    force: bool,
    seen: ContainerState,
    stopOk: bool,
    reached: set<string>,
    runtimeOk: bool,
    live: bool)

  /** Removal goes ahead unless the status is unknown or shows a live container and force is off. */
  predicate RemoveProceeds(d: Daemon, id: ContainerID, env: RemoveEnv) {
    && id in d.records && env.statusOk
    && (env.force || (id !in d.running && env.seen !in {Running, Paused, Restarting}))
  }

  /** The keys freed by disconnecting a container from every network that resolves. */
  ghost function FreedBy(d: Daemon, id: ContainerID, reached: set<string>): set<PortKey> {
    set a, k | a in d.attachments && a.container == id && a.network in d.networks && a.network in reached
               && k in ReleasedKeys(d.attachments[a].allocations) :: k
  }

  ghost function DisconnectAll(d: Daemon, id: ContainerID, reached: set<string>): Daemon {
    d.(used := d.used - FreedBy(d, id, reached),
       attachments := map a | a in d.attachments
                              && !(a.container == id && a.network in d.networks && a.network in reached)
                        :: d.attachments[a])
  }

  ghost function RemoveStep(d: Daemon, id: ContainerID, env: RemoveEnv): Daemon {
    if !RemoveProceeds(d, id, env) then d
    else
      var c := d.records[id];
      var d1 := DisconnectAll(if env.stopOk then d.(running := d.running - {id}) else d, id, env.reached);
      var d2 := if c.state == Created then d1.(used := d1.used - BindingKeys(c.portBindings)) else d1;
      if !env.runtimeOk then d2
      else d2.(records := RemoveSpec(d2.records, id, env.live).directory, running := d2.running - {id})
  }

  function Upsert(networks: seq<string>, network: string): seq<string> {
    if network in networks then networks else networks + [network]
  }

  /** Connecting a running container to a further network, without ports. */
  function ConnectStep(d: Daemon, id: ContainerID, network: string, ok: bool, live: bool): Daemon {
    if id !in d.records || id !in d.running || !ok then d
    else
      var c := d.records[id];
      var c' := c.(networks := Upsert(c.networks, network));
      if IsHostOrNone(network) then Persist(d, c', live)
      else if network !in d.networks then d
      else Persist(d.(attachments := d.attachments[AttachmentKey(id, network) := AttachmentState([], [])]), c', live)
  }

  /** Inspecting or listing a container persists the state the runtime reports. */
  function RefreshStep(d: Daemon, id: ContainerID, seen: ContainerState, live: bool): Daemon {
    if id !in d.records then d
    else
      var c := d.records[id];
      var s := if id in d.running then Running else seen;
      if (c.state == Created && s != Running) || c.state == s then d else Persist(d, c.(state := s), live)
  }

  /** The names host and none are reserved, in any case, and the empty name is invalid. */
  function CreateNetworkStep(d: Daemon, network: string): Daemon {
    if network == "" || Lower(network) == "host" || Lower(network) == "none" then d
    else d.(networks := d.networks + {network})
  }

  function RemoveNetworkStep(d: Daemon, network: string, ok: bool): Daemon {
    if !ok || exists a <- d.attachments :: a.network == network then d
    else d.(networks := d.networks - {network})
  }

  datatype Op =
    | Create(req: CreateRequest, cenv: CreateEnv)
    | Start(id: ContainerID, senv: StartEnv)
    | Stop(id: ContainerID, stopOk: bool, live: bool)
    | RemoveContainer(id: ContainerID, renv: RemoveEnv)
    | NetworkConnect(id: ContainerID, network: string, ok: bool, live: bool)
    | Inspect(id: ContainerID, seen: ContainerState, live: bool)
    | TaskExit(id: ContainerID)
    | CreateNetwork(network: string)
    | RemoveNetwork(network: string, ok: bool)

  ghost function Step(cfg: Config, d: Daemon, op: Op): Daemon {
    match op
    case Create(req, env) => CreateStep(cfg, d, req, env)
    case Start(id, env) => StartStep(cfg, d, id, env)
    case Stop(id, stopOk, live) => StopStep(d, id, stopOk, live)
    case RemoveContainer(id, env) => RemoveStep(d, id, env)
    case NetworkConnect(id, network, ok, live) => ConnectStep(d, id, network, ok, live)
    case Inspect(id, seen, live) => RefreshStep(d, id, seen, live)
    case TaskExit(id) => d.(running := d.running - {id})
    case CreateNetwork(network) => CreateNetworkStep(d, network)
    case RemoveNetwork(network, ok) => RemoveNetworkStep(d, network, ok)
  }
}
