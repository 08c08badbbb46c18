/** Ports are owned by exactly the registered containers, over whole runs of the daemon. */
module Ownership {
  import opened Bytes
  import opened Text
  import opened PortMap
  import opened PortBatch
  import opened Domain
  import opened ContainerRegistry
  import opened Lifecycle

  ghost function Keys(c: Container): set<PortKey> {
    BindingKeys(c.portBindings)
  }

  /** The reserved set is exactly the disjoint union of the registered containers' bindings. */
  ghost predicate Owned(d: Daemon) {
    && (forall id <- d.records :: Keys(d.records[id]) <= d.used)
    && (forall k <- d.used :: exists id <- d.records :: k in Keys(d.records[id]))
    && (forall i, j | i in d.records && j in d.records && i != j :: Keys(d.records[i]) !! Keys(d.records[j]))
  }

  /** Bindings that name a key each. */
  ghost predicate Named(ports: seq<PortBinding>) {
    forall i | 0 <= i < |ports| :: BindingKey(ports[i]).Some?
  }

  /** The keys an attachment will release. */
  ghost function Held(a: AttachmentState): set<PortKey> {
    ReleasedKeys(a.allocations)
  }

  /** Some attachment will release all of the container's ports. */
  ghost predicate Covered(d: Daemon, c: Container) {
    || Keys(c) == {}
    || exists a <- d.attachments :: a.container == c.id && Held(d.attachments[a]) == Keys(c)
  }

  /** Every record can be taken back: its bindings name keys, and those with ports have a network to join. */
  ghost predicate SoundRecord(c: Container) {
    Named(c.portBindings) && (c.portBindings != [] ==> Attachable(c).Some?)
  }

  /** Attachments are on existing networks and hold all of their container's ports or none, while it is registered. */
  ghost predicate SoundAttachment(d: Daemon, a: AttachmentKey, s: AttachmentState) {
    && a.network in d.networks
    && (a.container in d.records ==> Held(s) == {} || Held(s) == Keys(d.records[a.container]))
  }

  /** Once a container has left the created state, or has a task, an attachment will release its ports. */
  ghost predicate Releasable(d: Daemon, id: ContainerID) {
    id in d.records && (d.records[id].state != Created || id in d.running) ==> Covered(d, d.records[id])
  }

  ghost predicate AllSound(d: Daemon) {
    && (forall id <- d.records :: SoundRecord(d.records[id]))
    && (forall id <- d.running :: id in d.records)
    && (forall n <- d.networks :: !IsHostOrNone(n))
  }

  ghost predicate AllAttached(d: Daemon) {
    forall a <- d.attachments :: SoundAttachment(d, a, d.attachments[a])
  }

  ghost predicate AllReleasable(d: Daemon) {
    forall id <- d.records :: Releasable(d, id)
  }

  ghost predicate Inv(cfg: Config, d: Daemon) {
    && Safe(cfg, d.used) && WellKept(d.records) && Owned(d)
    && AllSound(d) && AllAttached(d) && AllReleasable(d)
  }

  // ---------------------------------------------------------------------------------------------
  // The steps that break ownership
  // ---------------------------------------------------------------------------------------------

  /** A container some attachment other than the one on `network` will release. */
  ghost predicate CoveredElsewhere(d: Daemon, c: Container, network: string) {
    || Keys(c) == {}
    || exists a <- d.attachments ::
         a.container == c.id && a.network != network && Held(d.attachments[a]) == Keys(c)
  }

  /** Disconnecting reaches an attachment that holds ports of the container. */
  ghost predicate Reaches(d: Daemon, id: ContainerID, reached: set<string>) {
    exists a <- d.attachments :: a.container == id && a.network in reached && Held(d.attachments[a]) != {}
  }

  /** A removal frees the container's ports: by itself in the created state, or through an attachment. */
  ghost predicate Frees(d: Daemon, id: ContainerID, env: RemoveEnv) {
    id in d.records && (d.records[id].state == Created || Reaches(d, id, env.reached))
  }

  /**
   When a step loses track of ports:
   - a create whose labels cannot be encoded after the ports were reserved;
   - a start whose join fails because the task already exited, or whose task then cannot be stopped;
   - a removal that frees the ports and fails afterwards, or that drops the record and could not free them;
   - connecting a container again to the network whose attachment holds its ports.
   A container without ports is safe from all of these.
   */
  ghost predicate Disrupts(cfg: Config, d: Daemon, op: Op) {
    match op
    case Create(req, env) =>
      && env.accepted && !NameTaken(d.records, req.name, "") && !Refused(EnsureNetwork(d, req.mode), req)
      && req.ports != [] && Batch(cfg, d.used, req.ports, env.probes, NO_RIVALS).result.Ok?
      && !env.labelsOk
    case Start(id, env) =>
      && id in d.records && id !in d.running && env.taskStarted
      && JoinFails(d, d.records[id], env) && d.records[id].portBindings != []
      && (env.exits || (!env.stopOk && !Covered(d, d.records[id])))
    case RemoveContainer(id, env) =>
      && RemoveProceeds(d, id, env) && d.records[id].portBindings != []
      && ((env.runtimeOk && env.live) != Frees(d, id, env))
    case NetworkConnect(id, network, ok, live) =>
      && id in d.records && id in d.running && ok && network in d.networks
      && !CoveredElsewhere(d, d.records[id], network)
    case _ => false
  }

  /** An ID that neither a record nor an attachment bears. */
  ghost predicate Unused(d: Daemon, id: ContainerID) {
    id !in d.records && forall a <- d.attachments :: a.container != id
  }

  /** The runtime gives a new container an unused ID, and reports only live tasks as running. */
  ghost predicate Possible(d: Daemon, op: Op) {
    match op
    case Create(_, env) => env.runtimeID.Some? ==> Unused(d, env.runtimeID.value)
    case Inspect(_, seen, _) => seen != Running
    case _ => true
  }

  // ---------------------------------------------------------------------------------------------
  // Small facts
  // ---------------------------------------------------------------------------------------------

  lemma {:induction false} NamedKeys(ports: seq<PortBinding>)
    requires Named(ports)
    ensures BindingKeys(ports) == {} <==> ports == []
  {
    if ports != [] {
      assert BindingKey(ports[0]).value in BindingKeys(ports);
    }
  }

  /** A registered container holds keys exactly if it has bindings. */
  lemma PortsAreKeys(d: Daemon, id: ContainerID)
    requires AllSound(d) && id in d.records
    ensures Keys(d.records[id]) == {} <==> d.records[id].portBindings == []
  {
    assert SoundRecord(d.records[id]);
    NamedKeys(d.records[id].portBindings);
  }

  /** Re-reserving ports that are still reserved fails at once and changes nothing. */
  lemma RestoreIsNoop(cfg: Config, used: set<PortKey>, ports: seq<PortBinding>, probes: nat -> Probe)
    requires Safe(cfg, used) && Named(ports) && BindingKeys(ports) <= used
    ensures Restored(cfg, used, ports, probes) == used
  {
    if ports != [] {
      var b := ports[0];
      var k := BindingKey(b).value;
      assert k in BindingKeys(ports);
      assert Conflict(cfg, k, k);
      assert AfterRivals(cfg, Shared({}, used), NO_RIVALS(0)) == Shared({}, used);
      assert AfterRivals(cfg, Shared({}, used), NO_RIVALS(1)) == Shared({}, used);
      assert Shared({}, used).Used() == used;
      assert AllocateResult(cfg, used, b.protocol, b.hostIP, b.hostPort, probes(0)) == Fails(PortInUse);
    }
  }

  /** Persisting a registered container replaces its record or, without a live context, nothing. */
  lemma PersistEffect(d: Daemon, c: Container, live: bool)
    requires WellKept(d.records) && c.id in d.records && c.name == d.records[c.id].name
    ensures Persist(d, c, live)
         == if live then d.(records := d.records[c.id := FillImages(c)]) else d
  {
    assert !NameTaken(d.records, c.name, c.id);
  }

  /** A record replaced by one with the same ports, still releasable. */
  ghost predicate SameOwner(d: Daemon, c: Container) {
    && c.id in d.records && c.name == d.records[c.id].name && c.portBindings == d.records[c.id].portBindings
    && SoundRecord(c)
    && (c.state != Created || c.id in d.running ==> Covered(d, c))
  }

  lemma PersistKeeps(cfg: Config, d: Daemon, c: Container, live: bool)
    requires Inv(cfg, d) && SameOwner(d, c)
    ensures Inv(cfg, Persist(d, c, live))
  {
    PersistEffect(d, c, live);
    if live {
      ReplaceKeeps(cfg, d, FillImages(c));
    }
  }

  lemma ReplaceKeeps(cfg: Config, d: Daemon, c: Container)
    requires Inv(cfg, d) && SameOwner(d, c)
    ensures Inv(cfg, d.(records := d.records[c.id := c]))
  {
    var d' := d.(records := d.records[c.id := c]);
    ReplaceSound(d, c);
    SameKeysOwned(d, d');
    SameKeysAttached(d, d');
    ReplaceReleasable(d, c);
  }

  lemma ReplaceSound(d: Daemon, c: Container)
    requires WellKept(d.records) && AllSound(d) && SameOwner(d, c)
    ensures var d' := d.(records := d.records[c.id := c]);
      WellKept(d'.records) && AllSound(d') && SameKeys(d, d')
  {
    var d' := d.(records := d.records[c.id := c]);
    assert d'.records.Keys == d.records.Keys;
    assert forall id <- d.records | id != c.id :: d'.records[id] == d.records[id];
  }

  /** The same containers with the same ports. */
  ghost predicate SameKeys(d: Daemon, d': Daemon) {
    && d'.records.Keys == d.records.Keys
    && forall id <- d.records :: Keys(d'.records[id]) == Keys(d.records[id])
  }

  lemma SameKeysOwned(d: Daemon, d': Daemon)
    requires SameKeys(d, d') && d'.used == d.used && Owned(d)
    ensures Owned(d')
  {
    forall k <- d'.used
      ensures exists id <- d'.records :: k in Keys(d'.records[id])
    {
      var id :| id in d.records && k in Keys(d.records[id]);
      assert id in d'.records && k in Keys(d'.records[id]);
    }
  }

  lemma SameKeysAttached(d: Daemon, d': Daemon)
    requires SameKeys(d, d') && d'.attachments == d.attachments && d.networks <= d'.networks && AllAttached(d)
    ensures AllAttached(d')
  {
    forall a <- d'.attachments
      ensures SoundAttachment(d', a, d'.attachments[a])
    {
      assert SoundAttachment(d, a, d.attachments[a]);
    }
  }

  lemma ReplaceReleasable(d: Daemon, c: Container)
    requires AllReleasable(d) && SameOwner(d, c)
    ensures AllReleasable(d.(records := d.records[c.id := c]))
  {
    var d' := d.(records := d.records[c.id := c]);
    forall id <- d'.records
      ensures Releasable(d', id)
    {
      assert Releasable(d, id);
      SameCover(d, d', if id == c.id then c else d.records[id]);
    }
  }

  lemma SameCover(d: Daemon, d': Daemon, c: Container)
    requires d'.attachments == d.attachments
    ensures Covered(d, c) <==> Covered(d', c)
  {
  }

  /** Ending a task asks less of a container. */
  lemma StopKeeps(cfg: Config, d: Daemon, id: ContainerID)
    requires Inv(cfg, d)
    ensures Inv(cfg, d.(running := d.running - {id}))
  {
    var d' := d.(running := d.running - {id});
    SameKeysOwned(d, d');
    SameKeysAttached(d, d');
    forall i <- d'.records
      ensures Releasable(d', i)
    {
      assert Releasable(d, i);
      SameCover(d, d', d.records[i]);
    }
  }

  lemma AddNetwork(cfg: Config, d: Daemon, network: string)
    requires Inv(cfg, d) && !IsHostOrNone(network)
    ensures Inv(cfg, d.(networks := d.networks + {network}))
  {
    var d' := d.(networks := d.networks + {network});
    SameKeysOwned(d, d');
    SameKeysAttached(d, d');
    SameReleasable(d, d');
  }

  lemma SameReleasable(d: Daemon, d': Daemon)
    requires AllReleasable(d)
    requires d'.attachments == d.attachments && d'.records == d.records && d'.running <= d.running
    ensures AllReleasable(d')
  {
    forall i <- d'.records
      ensures Releasable(d', i)
    {
      assert Releasable(d, i);
      SameCover(d, d', d.records[i]);
    }
  }

  // ---------------------------------------------------------------------------------------------
  // Create
  // ---------------------------------------------------------------------------------------------

  /** A new container brings its own, newly reserved ports. */
  lemma AddRecord(cfg: Config, d: Daemon, c: Container)
    requires Inv(cfg, d) && Unused(d, c.id) && c.id != "" && !NameTaken(d.records, c.name, c.id)
    requires c.state == Created && SoundRecord(c)
    requires Keys(c) !! d.used && Safe(cfg, d.used + Keys(c))
    ensures Inv(cfg, d.(used := d.used + Keys(c), records := d.records[c.id := c]))
  {
    AddRecordWellKept(d.records, c);
    AddRecordOwned(d, c);
    AddRecordReleasable(d, c);
  }

  lemma AddRecordWellKept(m: Directory, c: Container)
    requires WellKept(m) && c.id != "" && !NameTaken(m, c.name, c.id)
    ensures WellKept(m[c.id := c])
  {
    assert forall i <- m :: i != c.id ==> m[c.id := c][i] == m[i];
  }

  lemma AddRecordReleasable(d: Daemon, c: Container)
    requires AllAttached(d) && AllReleasable(d) && AllSound(d) && SoundRecord(c)
    requires Unused(d, c.id) && c.state == Created
    ensures var d' := d.(used := d.used + Keys(c), records := d.records[c.id := c]);
      AllAttached(d') && AllReleasable(d') && AllSound(d')
  {
    var d' := d.(used := d.used + Keys(c), records := d.records[c.id := c]);
    assert forall id <- d.records :: d'.records[id] == d.records[id];
    forall a <- d'.attachments
      ensures SoundAttachment(d', a, d'.attachments[a])
    {
      assert SoundAttachment(d, a, d.attachments[a]);
    }
    forall id <- d'.records
      ensures Releasable(d', id)
    {
      if id in d.records {
        assert Releasable(d, id);
        SameCover(d, d', d.records[id]);
      }
    }
  }

  lemma AddRecordOwned(d: Daemon, c: Container)
    requires Owned(d) && c.id !in d.records && Keys(c) !! d.used
    ensures Owned(d.(used := d.used + Keys(c), records := d.records[c.id := c]))
  {
    var d' := d.(used := d.used + Keys(c), records := d.records[c.id := c]);
    assert forall id <- d.records :: d'.records[id] == d.records[id];
    assert d'.records[c.id] == c;
    forall k <- d'.used
      ensures exists id <- d'.records :: k in Keys(d'.records[id])
    {
      if k in d.used {
        var id :| id in d.records && k in Keys(d.records[id]);
        assert k in Keys(d'.records[id]);
      }
    }
  }

  /** An undisturbed batch adds exactly the filled bindings' keys, or nothing. */
  lemma BatchEffect(cfg: Config, used: set<PortKey>, ports: seq<PortBinding>, probes: nat -> Probe)
    requires Safe(cfg, used)
    ensures var out := Batch(cfg, used, ports, probes, NO_RIVALS);
      && Safe(cfg, out.shared.Used())
      && (out.result.Fails? ==> out.shared.Used() == used)
      && (out.result.Ok? ==>
            var got := out.result.value.bindings;
            && out.shared.Used() == used + BindingKeys(got) && BindingKeys(got) !! used
            && Named(got) && |got| == |ports|)
  {
    BatchAllOrNothing(cfg, used, ports, probes, NO_RIVALS);
    UndisturbedBatch(cfg, used, ports, probes);
    var out := Batch(cfg, used, ports, probes, NO_RIVALS);
    if out.result.Ok? {
      var got := out.result.value.bindings;
      assert forall i | 0 <= i < |got| :: Fills(ports[i], got[i]);
    }
  }

  lemma RegisterKeeps(cfg: Config, d: Daemon, req: CreateRequest, ports: seq<PortBinding>, env: CreateEnv)
    requires Inv(cfg, d) && env.labelsOk
    requires BindingKeys(ports) !! d.used && Safe(cfg, d.used + BindingKeys(ports)) && Named(ports)
    requires !Refused(d, req) && (ports != [] ==> req.ports != [])
    requires env.runtimeID.Some? ==> Unused(d, env.runtimeID.value)
    ensures Inv(cfg, Register(d.(used := d.used + BindingKeys(ports)), req, ports, env))
  {
    var d1 := d.(used := d.used + BindingKeys(ports));
    assert d1.used - BindingKeys(ports) == d.used;
    assert d1.(used := d.used) == d;
    if env.runtimeID.Some? {
      var c := NewRecord(env.runtimeID.value, req, ports);
      if SaveSpec(d1.records, c, env.live).error.None? {
        assert FillImages(c) == c;
        AddRecord(cfg, d, c);
      }
    }
  }

  lemma CreateKeeps(cfg: Config, d: Daemon, req: CreateRequest, env: CreateEnv)
    requires Inv(cfg, d) && Possible(d, Create(req, env)) && !Disrupts(cfg, d, Create(req, env))
    ensures Inv(cfg, CreateStep(cfg, d, req, env))
  {
    var ready := EnsureNetwork(d, req.mode);
    AddNetwork(cfg, d, DEFAULT_NETWORK);
    if env.accepted && !NameTaken(d.records, req.name, "") && !Refused(ready, req) {
      if req.ports == [] {
        if env.labelsOk {
          assert ready.(used := ready.used + BindingKeys([])) == ready;
          RegisterKeeps(cfg, ready, req, [], env);
        }
      } else {
        BatchEffect(cfg, ready.used, req.ports, env.probes);
        var out := Batch(cfg, ready.used, req.ports, env.probes, NO_RIVALS);
        if out.result.Ok? {
          RegisterKeeps(cfg, ready, req, out.result.value.bindings, env);
        }
      }
    }
  }

  // ---------------------------------------------------------------------------------------------
  // Start
  // ---------------------------------------------------------------------------------------------

  /** A container whose ports an attachment will release may have a task. */
  lemma TaskKeeps(cfg: Config, d: Daemon, id: ContainerID)
    requires Inv(cfg, d) && id in d.records && Covered(d, d.records[id])
    ensures Inv(cfg, d.(running := d.running + {id}))
  {
    var d' := d.(running := d.running + {id});
    SameKeysOwned(d, d');
    SameKeysAttached(d, d');
    TaskReleasable(d, id);
  }

  lemma TaskReleasable(d: Daemon, id: ContainerID)
    requires AllReleasable(d) && id in d.records && Covered(d, d.records[id])
    ensures AllReleasable(d.(running := d.running + {id}))
  {
    var d' := d.(running := d.running + {id});
    forall i <- d'.records
      ensures Releasable(d', i)
    {
      assert Releasable(d, i);
      SameCover(d, d', d.records[i]);
    }
  }

  ghost function Attach(d: Daemon, a: AttachmentKey, s: AttachmentState): Daemon {
    d.(attachments := d.attachments[a := s])
  }

  /** Tracking an attachment that holds all of a container's ports. */
  lemma AttachKeeps(cfg: Config, d: Daemon, c: Container, network: string, s: AttachmentState)
    requires Inv(cfg, d) && c.id in d.records && c == d.records[c.id] && network in d.networks
    requires Held(s) == Keys(c)
    ensures Inv(cfg, Attach(d, AttachmentKey(c.id, network), s))
    ensures Covered(Attach(d, AttachmentKey(c.id, network), s), c)
  {
    var key := AttachmentKey(c.id, network);
    var d' := Attach(d, key, s);
    assert d'.attachments[key] == s;
    TrackKeeps(cfg, d, key, s, d');
  }

  /** Tracking a sound attachment after which its container's ports are still held by one. */
  lemma TrackKeeps(cfg: Config, d: Daemon, key: AttachmentKey, s: AttachmentState, d': Daemon)
    requires Inv(cfg, d) && SoundAttachment(d, key, s) && d' == Attach(d, key, s) && key.container in d.records
    requires Covered(d', d.records[key.container])
    ensures Inv(cfg, d')
  {
    SameKeysOwned(d, d');
    TrackAttached(d, key, s, d');
    TrackReleasable(d, key, s, d');
  }

  lemma TrackAttached(d: Daemon, key: AttachmentKey, s: AttachmentState, d': Daemon)
    requires AllAttached(d) && SoundAttachment(d, key, s) && d' == Attach(d, key, s)
    ensures AllAttached(d')
  {
    forall a <- d'.attachments
      ensures SoundAttachment(d', a, d'.attachments[a])
    {
      if a != key {
        assert SoundAttachment(d, a, d.attachments[a]);
      }
    }
  }

  lemma TrackReleasable(d: Daemon, key: AttachmentKey, s: AttachmentState, d': Daemon)
    requires AllReleasable(d) && WellKept(d.records) && key.container in d.records && d' == Attach(d, key, s)
    requires Covered(d', d.records[key.container])
    ensures AllReleasable(d')
  {
    forall i <- d'.records
      ensures Releasable(d', i)
    {
      assert Releasable(d, i);
      if i != key.container {
        OtherCover(d, d', d.records[i], key.container);
      }
    }
  }

  /** Changing the attachments of one container does not affect the others. */
  lemma OtherCover(d: Daemon, d': Daemon, c: Container, id: ContainerID)
    requires c.id != id
    requires forall a <- d.attachments :: a.container != id ==>
               a in d'.attachments && d'.attachments[a] == d.attachments[a]
    ensures Covered(d, c) ==> Covered(d', c)
  {
    if Covered(d, c) && Keys(c) != {} {
      var a :| a in d.attachments && a.container == c.id && Held(d.attachments[a]) == Keys(c);
      assert a in d'.attachments && d'.attachments[a] == d.attachments[a];
    }
  }

  lemma FinishKeeps(cfg: Config, d: Daemon, c: Container, joined: bool, env: StartEnv, d': Daemon)
    requires Inv(cfg, d) && c.id in d.records && c == d.records[c.id] && Covered(d, c)
    requires d' == FinishStart(d, c, joined, env)
    ensures Inv(cfg, d')
  {
    assert SoundRecord(c);
    var c' := FinishedRecord(d, c, joined, env);
    FinishedOwner(d, c, c');
    PersistKeeps(cfg, d, c', env.live);
  }

  /** The record a start leaves behind. */
  lemma FinishedRecord(d: Daemon, c: Container, joined: bool, env: StartEnv) returns (c': Container)
    ensures FinishStart(d, c, joined, env) == Persist(d, c', env.live)
    ensures c' == c.(state := c'.state, networks := c'.networks) && Attachable(c') == Attachable(c)
  {
    var network := Attachable(c);
    c' := if c.id !in d.running && env.seen !in {Running, Created, Unknown} then c.(state := env.seen)
          else c.(networks := if joined && network.Some? then [network.value] else c.networks, state := Running);
  }

  lemma FinishedOwner(d: Daemon, c: Container, c': Container)
    requires c.id in d.records && c == d.records[c.id] && SoundRecord(c) && Covered(d, c)
    requires c' == c.(state := c'.state, networks := c'.networks)
    requires Attachable(c) == Attachable(c')
    ensures SameOwner(d, c')
  {
    assert Covered(d, c');
  }

  lemma StartJoined(cfg: Config, d: Daemon, id: ContainerID, env: StartEnv, d': Daemon)
    requires Inv(cfg, d) && d' == StartStep(cfg, d, id, env) && id in d.records && id !in d.running && env.taskStarted
    requires !JoinFails(d, d.records[id], env)
    ensures Inv(cfg, d')
  {
    var c := d.records[id];
    var d1 := d.(running := d.running + {id});
    var attached := d;
    assert SoundRecord(c);
    if Attachable(c).Some? {
      var network := Attachable(c).value;
      AdoptMeaning(d.used, c.portBindings);
      var s := AttachmentState(AdoptResult(d.used, c.portBindings).value, c.portBindings);
      AttachKeeps(cfg, d, c, network, s);
      attached := Attach(d, AttachmentKey(c.id, network), s);
    }
    assert Covered(attached, c);
    TaskKeeps(cfg, attached, id);
    var joined := attached.(running := attached.running + {id});
    assert Join(cfg, d1, c, env) == joined;
    StopKeeps(cfg, joined, id);
    var after := if env.exits then joined.(running := joined.running - {id}) else joined;
    SameCover(attached, after, c);
    FinishKeeps(cfg, after, c, true, env, FinishStart(after, c, true, env));
  }

  /** A failed join restores nothing that was not there, so only the task is new. */
  lemma FailedJoin(cfg: Config, d: Daemon, id: ContainerID, env: StartEnv, d': Daemon)
    requires Inv(cfg, d) && id in d.records && id !in d.running && env.taskStarted
    requires JoinFails(d, d.records[id], env) && d' == StartStep(cfg, d, id, env)
    ensures !env.exits ==> d' == if env.stopOk then d else d.(running := d.running + {id})
    ensures env.exits ==>
              d' == FinishStart(d.(used := d.used - Keys(d.records[id])), d.records[id], false, env)
  {
    var c := d.records[id];
    var d1 := d.(running := d.running + {id});
    assert SoundRecord(c);
    RestoreIsNoop(cfg, d.used, c.portBindings, env.probes);
    assert Join(cfg, d1, c, env) == d1;
    assert d1.running - {id} == d.running;
  }

  lemma StartFailed(cfg: Config, d: Daemon, id: ContainerID, env: StartEnv, d': Daemon)
    requires Inv(cfg, d) && d' == StartStep(cfg, d, id, env) && id in d.records && id !in d.running && env.taskStarted
    requires JoinFails(d, d.records[id], env) && !Disrupts(cfg, d, Start(id, env))
    ensures Inv(cfg, d')
  {
    var c := d.records[id];
    FailedJoin(cfg, d, id, env, d');
    if env.exits {
      assert Keys(c) == {} && d.used - Keys(c) == d.used;
      FinishKeeps(cfg, d, c, false, env, d');
    } else if !env.stopOk {
      PortsAreKeys(d, id);
      TaskKeeps(cfg, d, id);
    }
  }

  // ---------------------------------------------------------------------------------------------
  // Stop and inspect
  // ---------------------------------------------------------------------------------------------

  lemma StopStepKeeps(cfg: Config, d: Daemon, id: ContainerID, stopOk: bool, live: bool)
    requires Inv(cfg, d)
    ensures Inv(cfg, StopStep(d, id, stopOk, live))
  {
    if id in d.records && d.records[id].state != Created && stopOk {
      var d' := d.(running := d.running - {id});
      var c := d.records[id].(state := Exited);
      StopKeeps(cfg, d, id);
      assert Releasable(d, id) && SoundRecord(d.records[id]);
      SameCover(d, d', c);
      PersistKeeps(cfg, d', c, live);
    }
  }

  lemma RefreshKeeps(cfg: Config, d: Daemon, id: ContainerID, seen: ContainerState, live: bool, d': Daemon)
    requires Inv(cfg, d) && d' == RefreshStep(d, id, seen, live) && seen != Running
    ensures Inv(cfg, d')
  {
    if d' != d {
      var c := d.records[id].(state := if id in d.running then Running else seen);
      RefreshedOwner(d, id, c);
      assert d' == Persist(d, c, live);
      PersistKeeps(cfg, d, c, live);
    }
  }

  lemma RefreshedOwner(d: Daemon, id: ContainerID, c: Container)
    requires id in d.records && WellKept(d.records) && AllSound(d) && AllReleasable(d)
    requires c == d.records[id].(state := c.state)
    requires c.state != Created ==> d.records[id].state != Created || id in d.running
    ensures SameOwner(d, c)
  {
    assert Releasable(d, id) && SoundRecord(d.records[id]);
    assert Covered(d, d.records[id]) ==> Covered(d, c);
  }

  // ---------------------------------------------------------------------------------------------
  // Remove
  // ---------------------------------------------------------------------------------------------

  /** Disconnecting frees all of the container's own ports if it reaches an attachment that holds them, else none. */
  lemma FreedIsOwn(cfg: Config, d: Daemon, id: ContainerID, reached: set<string>)
    requires Inv(cfg, d) && id in d.records
    ensures FreedBy(d, id, reached) == if Reaches(d, id, reached) then Keys(d.records[id]) else {}
  {
    var c := d.records[id];
    forall k <- FreedBy(d, id, reached)
      ensures k in Keys(c) && Reaches(d, id, reached)
    {
      var a :| a in d.attachments && a.container == id && a.network in reached && k in Held(d.attachments[a]);
      assert SoundAttachment(d, a, d.attachments[a]);
    }
    if Reaches(d, id, reached) {
      var a :| a in d.attachments && a.container == id && a.network in reached && Held(d.attachments[a]) != {};
      assert SoundAttachment(d, a, d.attachments[a]);
      assert forall k <- Keys(c) :: k in FreedBy(d, id, reached);
    }
  }

  /** Where every network resolves, an attachment that covers the container is reached. */
  lemma CoveredIsReached(cfg: Config, d: Daemon, id: ContainerID, reached: set<string>)
    requires Inv(cfg, d) && id in d.records && d.networks <= reached
    requires Covered(d, d.records[id]) && Keys(d.records[id]) != {}
    ensures Reaches(d, id, reached)
  {
    var c := d.records[id];
    var a :| a in d.attachments && a.container == c.id && Held(d.attachments[a]) == Keys(c);
    assert SoundAttachment(d, a, d.attachments[a]);
  }

  /** The daemon without the attachments of `id` on the networks reached. */
  ghost function Detach(d: Daemon, id: ContainerID, reached: set<string>): Daemon {
    d.(attachments := map a | a in d.attachments && !(a.container == id && a.network in reached) :: d.attachments[a])
  }

  lemma DisconnectIsDetach(cfg: Config, d: Daemon, id: ContainerID, reached: set<string>)
    requires Inv(cfg, d)
    ensures DisconnectAll(d, id, reached) == Detach(d, id, reached).(used := d.used - FreedBy(d, id, reached))
  {
    assert forall a <- d.attachments :: SoundAttachment(d, a, d.attachments[a]);
    assert DisconnectAll(d, id, reached).attachments == Detach(d, id, reached).attachments;
  }

  /** Attachments that hold nothing can be dropped. */
  lemma DetachKeeps(cfg: Config, d: Daemon, id: ContainerID, reached: set<string>)
    requires Inv(cfg, d) && id in d.records && !Reaches(d, id, reached)
    ensures Inv(cfg, Detach(d, id, reached))
  {
    var d' := Detach(d, id, reached);
    SameKeysOwned(d, d');
    forall a <- d'.attachments
      ensures SoundAttachment(d', a, d'.attachments[a])
    {
      assert SoundAttachment(d, a, d.attachments[a]);
    }
    DetachReleasable(d, id, reached, d');
  }

  lemma DetachReleasable(d: Daemon, id: ContainerID, reached: set<string>, d': Daemon)
    requires WellKept(d.records) && AllReleasable(d) && id in d.records && !Reaches(d, id, reached)
    requires d' == Detach(d, id, reached)
    ensures AllReleasable(d')
  {
    forall i <- d'.records
      ensures Releasable(d', i)
    {
      assert Releasable(d, i);
      DetachCover(d, d.records[i], id, reached, d');
    }
  }

  lemma DetachCover(d: Daemon, c: Container, id: ContainerID, reached: set<string>, d': Daemon)
    requires d' == Detach(d, id, reached) && (c.id == id ==> !Reaches(d, id, reached))
    ensures Covered(d, c) ==> Covered(d', c)
  {
    if Covered(d, c) && Keys(c) != {} {
      var a :| a in d.attachments && a.container == c.id && Held(d.attachments[a]) == Keys(c);
      assert a in d'.attachments && d'.attachments[a] == d.attachments[a];
    }
  }

  /** A container leaves together with its ports, its task and the attachments reached. */
  ghost function Drop(d: Daemon, id: ContainerID, reached: set<string>): Daemon
    requires id in d.records
  {
    Detach(d, id, reached).(
      used := d.used - Keys(d.records[id]), records := d.records - {id}, running := d.running - {id})
  }

  lemma DropKeeps(cfg: Config, d: Daemon, id: ContainerID, reached: set<string>, d': Daemon)
    requires Inv(cfg, d) && id in d.records && d' == Drop(d, id, reached)
    ensures Inv(cfg, d')
  {
    assert forall i <- d'.records :: i in d.records && i != id && d'.records[i] == d.records[i];
    DropOwned(d, id, d');
    DropReleasable(d, id, reached, d');
    DropAttached(d, id, reached, d');
  }

  lemma DropAttached(d: Daemon, id: ContainerID, reached: set<string>, d': Daemon)
    requires AllAttached(d) && id in d.records && d' == Drop(d, id, reached)
    ensures AllAttached(d')
  {
    forall a <- d'.attachments
      ensures SoundAttachment(d', a, d'.attachments[a])
    {
      assert SoundAttachment(d, a, d.attachments[a]);
    }
  }

  lemma DropReleasable(d: Daemon, id: ContainerID, reached: set<string>, d': Daemon)
    requires WellKept(d.records) && AllReleasable(d) && id in d.records && d' == Drop(d, id, reached)
    ensures AllReleasable(d')
  {
    forall i <- d'.records
      ensures Releasable(d', i)
    {
      assert Releasable(d, i);
      OtherCover(d, d', d.records[i], id);
    }
  }

  lemma DropOwned(d: Daemon, id: ContainerID, d': Daemon)
    requires Owned(d) && id in d.records
    requires d'.used == d.used - Keys(d.records[id]) && d'.records == d.records - {id}
    ensures Owned(d')
  {
    assert forall i <- d'.records :: i in d.records && i != id && d'.records[i] == d.records[i];
    forall k <- d'.used
      ensures exists i <- d'.records :: k in Keys(d'.records[i])
    {
      var i :| i in d.records && k in Keys(d.records[i]);
      assert i in d'.records && k in Keys(d'.records[i]);
    }
  }

  /** What a removal leaves reserved. */
  lemma RemovalFrees(cfg: Config, d: Daemon, id: ContainerID, env: RemoveEnv, left: set<PortKey>)
    requires Inv(cfg, d) && id in d.records
    requires left == d.used - FreedBy(d, id, env.reached)
    ensures (if d.records[id].state == Created then left - Keys(d.records[id]) else left)
         == d.used - (if Frees(d, id, env) then Keys(d.records[id]) else {})
  {
    FreedIsOwn(cfg, d, id, env.reached);
  }

  /** A removal that goes ahead detaches the container where it can, and frees exactly its ports or none. */
  lemma RemovalShape(cfg: Config, d: Daemon, id: ContainerID, env: RemoveEnv, d0: Daemon, d': Daemon)
    requires Inv(cfg, d) && RemoveProceeds(d, id, env) && d' == RemoveStep(d, id, env)
    requires d0 == if env.stopOk then d.(running := d.running - {id}) else d
    ensures Inv(cfg, d0) && (Frees(d0, id, env) <==> Frees(d, id, env))
    ensures d'.used == d.used - (if Frees(d, id, env) then Keys(d.records[id]) else {})
    ensures d'.records == if env.runtimeOk && env.live then d.records - {id} else d.records
    ensures d'.attachments == Detach(d0, id, env.reached).attachments && d'.networks == d.networks
    ensures d'.running == if env.runtimeOk then d0.running - {id} else d0.running
  {
    StopKeeps(cfg, d, id);
    DisconnectIsDetach(cfg, d0, id, env.reached);
    RemovalFrees(cfg, d0, id, env, d0.used - FreedBy(d0, id, env.reached));
  }

  lemma RemoveKeeps(cfg: Config, d: Daemon, id: ContainerID, env: RemoveEnv, d': Daemon)
    requires Inv(cfg, d) && !Disrupts(cfg, d, RemoveContainer(id, env)) && d' == RemoveStep(d, id, env)
    ensures Inv(cfg, d')
  {
    if RemoveProceeds(d, id, env) {
      var d0 := if env.stopOk then d.(running := d.running - {id}) else d;
      RemovalShape(cfg, d, id, env, d0, d');
      assert Keys(d.records[id]) != {} ==> ((env.runtimeOk && env.live) <==> Frees(d0, id, env));
      if env.runtimeOk && env.live {
        assert d' == Drop(d0, id, env.reached);
        DropKeeps(cfg, d0, id, env.reached, d');
      } else {
        KeptRemoval(cfg, d0, id, env, d');
      }
    }
  }

  /** Nothing is lost when a removal is cut short before it freed any port. */
  lemma KeptRemoval(cfg: Config, d: Daemon, id: ContainerID, env: RemoveEnv, d': Daemon)
    requires Inv(cfg, d) && id in d.records && (Keys(d.records[id]) != {} ==> !Frees(d, id, env))
    requires d'.used == d.used - (if Frees(d, id, env) then Keys(d.records[id]) else {})
    requires d' == Detach(d, id, env.reached).(
                     used := d'.used, running := if env.runtimeOk then d.running - {id} else d.running)
    ensures Inv(cfg, d')
  {
    NothingReached(cfg, d, id, env);
    assert d'.used == d.used;
    DetachKeeps(cfg, d, id, env.reached);
    if env.runtimeOk {
      StopKeeps(cfg, Detach(d, id, env.reached), id);
    }
  }

  lemma NothingReached(cfg: Config, d: Daemon, id: ContainerID, env: RemoveEnv)
    requires Inv(cfg, d) && id in d.records && (Keys(d.records[id]) != {} ==> !Frees(d, id, env))
    ensures !Reaches(d, id, env.reached)
  {
    if Keys(d.records[id]) == {} {
      forall a <- d.attachments | a.container == id
        ensures Held(d.attachments[a]) == {}
      {
        assert SoundAttachment(d, a, d.attachments[a]);
      }
    }
  }

  // ---------------------------------------------------------------------------------------------
  // Networks
  // ---------------------------------------------------------------------------------------------

  lemma ConnectKeeps(cfg: Config, d: Daemon, id: ContainerID, network: string, ok: bool, live: bool, d': Daemon)
    requires Inv(cfg, d) && !Disrupts(cfg, d, NetworkConnect(id, network, ok, live))
    requires d' == ConnectStep(d, id, network, ok, live)
    ensures Inv(cfg, d')
  {
    if id in d.records && id in d.running && ok {
      var c := d.records[id];
      var c' := c.(networks := Upsert(c.networks, network));
      assert SoundRecord(c) && Releasable(d, id);
      if IsHostOrNone(network) {
        UpsertedOwner(d, c, c', network);
        PersistKeeps(cfg, d, c', live);
      } else if network in d.networks {
        var attached := Attach(d, AttachmentKey(id, network), AttachmentState([], []));
        EmptyAttachKeeps(cfg, d, c, network, attached);
        UpsertedOwner(attached, c, c', network);
        PersistKeeps(cfg, attached, c', live);
      }
    }
  }

  lemma UpsertedOwner(d: Daemon, c: Container, c': Container, network: string)
    requires c.id in d.records && c == d.records[c.id] && SoundRecord(c) && Covered(d, c)
    requires c' == c.(networks := Upsert(c.networks, network))
    ensures SameOwner(d, c')
  {
    assert Covered(d, c');
    assert c.networks != [] ==> c'.networks[0] == c.networks[0];
  }

  lemma EmptyAttachKeeps(cfg: Config, d: Daemon, c: Container, network: string, d': Daemon)
    requires Inv(cfg, d) && c.id in d.records && c == d.records[c.id] && network in d.networks
    requires CoveredElsewhere(d, c, network)
    requires d' == Attach(d, AttachmentKey(c.id, network), AttachmentState([], []))
    ensures Inv(cfg, d') && Covered(d', c)
  {
    CoverStays(d, c, network, AttachmentState([], []), d');
    assert Held(AttachmentState([], [])) == {};
    TrackKeeps(cfg, d, AttachmentKey(c.id, network), AttachmentState([], []), d');
  }

  lemma CoverStays(d: Daemon, c: Container, network: string, s: AttachmentState, d': Daemon)
    requires CoveredElsewhere(d, c, network) && d' == Attach(d, AttachmentKey(c.id, network), s)
    ensures Covered(d', c)
  {
    if Keys(c) != {} {
      var a :| a in d.attachments && a.container == c.id && a.network != network && Held(d.attachments[a]) == Keys(c);
      assert a in d'.attachments && d'.attachments[a] == d.attachments[a];
    }
  }

  lemma CreateNetworkKeeps(cfg: Config, d: Daemon, network: string)
    requires Inv(cfg, d)
    ensures Inv(cfg, CreateNetworkStep(d, network))
  {
    if CreateNetworkStep(d, network) != d {
      LowerReserved();
      AddNetwork(cfg, d, network);
    }
  }

  lemma LowerReserved()
    ensures Lower("host") == "host" && Lower("none") == "none"
  {
  }

  /** A network in use is not removed, so attachments keep resolving. */
  lemma RemoveNetworkKeeps(cfg: Config, d: Daemon, network: string, ok: bool)
    requires Inv(cfg, d)
    ensures Inv(cfg, RemoveNetworkStep(d, network, ok))
  {
    var d' := RemoveNetworkStep(d, network, ok);
    if d' != d {
      SameKeysOwned(d, d');
      SameReleasable(d, d');
      forall a <- d'.attachments
        ensures SoundAttachment(d', a, d'.attachments[a])
      {
        assert SoundAttachment(d, a, d.attachments[a]);
      }
    }
  }

  // ---------------------------------------------------------------------------------------------
  // The converse: those steps do break ownership
  // ---------------------------------------------------------------------------------------------

  /** A reserved port nobody is registered for. */
  lemma CreateLeaks(cfg: Config, d: Daemon, req: CreateRequest, env: CreateEnv, d': Daemon)
    requires Inv(cfg, d) && Disrupts(cfg, d, Create(req, env)) && d' == CreateStep(cfg, d, req, env)
    ensures !Owned(d')
  {
    BatchEffect(cfg, d.used, req.ports, env.probes);
    var got := Batch(cfg, d.used, req.ports, env.probes, NO_RIVALS).result.value.bindings;
    NamedKeys(got);
    var k :| k in BindingKeys(got);
    assert k in d'.used && d'.records == d.records;
    assert forall id <- d.records :: k !in Keys(d.records[id]);
  }

  /** A registered port that is no longer reserved. */
  lemma LostPort(d: Daemon, id: ContainerID)
    requires id in d.records && Keys(d.records[id]) != {} && Keys(d.records[id]) !! d.used
    ensures !Owned(d)
  {
    var k :| k in Keys(d.records[id]);
    assert k !in d.used;
  }

  /** A running container with ports that none of its attachments hold. */
  ghost predicate Stranded(d: Daemon, id: ContainerID) {
    && WellKept(d.records) && Owned(d) && id in d.records && id in d.running && Keys(d.records[id]) != {}
    && (forall a <- d.attachments :: a.container == id ==> Held(d.attachments[a]) == {})
  }

  lemma StrandedIsUncovered(d: Daemon, id: ContainerID)
    requires Stranded(d, id)
    ensures !Releasable(d, id)
  {
  }

  lemma StartLoses(cfg: Config, d: Daemon, id: ContainerID, env: StartEnv, d': Daemon)
    requires Inv(cfg, d) && Disrupts(cfg, d, Start(id, env)) && d' == StartStep(cfg, d, id, env)
    ensures env.exits ==> !Owned(d')
    ensures !env.exits ==> Stranded(d', id)
  {
    var c := d.records[id];
    PortsAreKeys(d, id);
    FailedJoin(cfg, d, id, env, d');
    if env.exits {
      var lost := d.(used := d.used - Keys(c));
      FinishPersists(lost, c, env);
      assert Keys(d'.records[id]) == Keys(c) && d'.used == lost.used;
      LostPort(d', id);
    } else {
      SameKeysOwned(d, d');
      NoneHolds(d, c);
    }
  }

  /** Where no attachment covers a container with ports, each of its attachments holds nothing. */
  lemma NoneHolds(d: Daemon, c: Container)
    requires AllAttached(d) && c.id in d.records && c == d.records[c.id] && !Covered(d, c)
    ensures forall a <- d.attachments :: a.container == c.id ==> Held(d.attachments[a]) == {}
  {
    forall a <- d.attachments | a.container == c.id
      ensures Held(d.attachments[a]) == {}
    {
      assert SoundAttachment(d, a, d.attachments[a]);
    }
  }

  lemma FinishPersists(d: Daemon, c: Container, env: StartEnv)
    requires WellKept(d.records) && c.id in d.records && c == d.records[c.id]
    ensures var d' := FinishStart(d, c, false, env);
      d'.used == d.used && c.id in d'.records && Keys(d'.records[c.id]) == Keys(c)
  {
    PersistEffect(d, c.(state := env.seen), env.live);
    PersistEffect(d, c.(state := Running), env.live);
    assert c.(networks := c.networks, state := Running) == c.(state := Running);
  }

  /** A removal loses a port either way: the record goes and the port stays, or the port goes and the record stays. */
  lemma RemoveLoses(cfg: Config, d: Daemon, id: ContainerID, env: RemoveEnv, d': Daemon)
    requires Inv(cfg, d) && Disrupts(cfg, d, RemoveContainer(id, env)) && d' == RemoveStep(d, id, env)
    ensures !Owned(d')
  {
    var d0 := if env.stopOk then d.(running := d.running - {id}) else d;
    RemovalShape(cfg, d, id, env, d0, d');
    PortsAreKeys(d, id);
    if Frees(d, id, env) {
      LostPort(d', id);
    } else {
      LeftPort(d, id, d');
    }
  }

  /** Ports stay reserved whose only container is gone. */
  lemma LeftPort(d: Daemon, id: ContainerID, d': Daemon)
    requires Owned(d) && id in d.records && Keys(d.records[id]) != {}
    requires d'.used == d.used && d'.records == d.records - {id}
    ensures !Owned(d')
  {
    var k :| k in Keys(d.records[id]);
    assert k in d'.used;
    assert forall i <- d'.records :: d'.records[i] == d.records[i] && k !in Keys(d'.records[i]);
  }

  lemma ConnectForgets(cfg: Config, d: Daemon, id: ContainerID, network: string, live: bool, d': Daemon)
    requires Inv(cfg, d) && Disrupts(cfg, d, NetworkConnect(id, network, true, live))
    requires d' == ConnectStep(d, id, network, true, live)
    ensures d'.used == d.used && SameKeys(d, d') && d'.running == d.running
    ensures Stranded(d', id)
  {
    var c := d.records[id];
    var c' := c.(networks := Upsert(c.networks, network));
    var attached := Attach(d, AttachmentKey(id, network), AttachmentState([], []));
    assert !IsHostOrNone(network);
    assert d' == Persist(attached, c', live);
    OverwriteForgets(d, c, network, attached);
    PersistShape(attached, c', live, d');
    SameKeysOwned(d, d');
  }

  /** Persisting a record under the same name and with the same ports. */
  lemma PersistShape(d: Daemon, c: Container, live: bool, d': Daemon)
    requires WellKept(d.records) && c.id in d.records && d' == Persist(d, c, live)
    requires c.name == d.records[c.id].name && Keys(c) == Keys(d.records[c.id])
    ensures SameKeys(d, d') && WellKept(d'.records) && d' == d.(records := d'.records)
  {
    PersistEffect(d, c, live);
    ApplyWellKept(d.records, ContainerRegistry.Save(c, live));
  }

  /** An empty attachment in place of the one that held a container's ports: no other holds any. */
  lemma OverwriteForgets(d: Daemon, c: Container, network: string, d': Daemon)
    requires AllAttached(d) && c.id in d.records && c == d.records[c.id] && !CoveredElsewhere(d, c, network)
    requires d' == Attach(d, AttachmentKey(c.id, network), AttachmentState([], []))
    ensures Keys(c) != {}
    ensures forall a <- d'.attachments :: a.container == c.id ==> Held(d'.attachments[a]) == {}
  {
    assert Held(AttachmentState([], [])) == {};
    forall a <- d'.attachments | a.container == c.id
      ensures Held(d'.attachments[a]) == {}
    {
      if a != AttachmentKey(c.id, network) {
        assert SoundAttachment(d, a, d.attachments[a]);
      }
    }
  }

  /**
   Ownership over one step, exactly: from a state in which ports are owned, every step keeps them owned
   and releasable if and only if it is none of the disrupting ones.
   */
  lemma StepKeepsOwnership(cfg: Config, d: Daemon, op: Op, d': Daemon)
    requires Inv(cfg, d) && Possible(d, op) && d' == Step(cfg, d, op)
    ensures Inv(cfg, d') <==> !Disrupts(cfg, d, op)
  {
    if Disrupts(cfg, d, op) {
      DisruptionBreaks(cfg, d, op, d');
    } else {
      match op {
        case Create(req, env) => CreateKeeps(cfg, d, req, env);
        case Start(id, env) => StartKeeps(cfg, d, id, env, d');
        case Stop(id, stopOk, live) => StopStepKeeps(cfg, d, id, stopOk, live);
        case RemoveContainer(id, env) => RemoveKeeps(cfg, d, id, env, d');
        case NetworkConnect(id, network, ok, live) => ConnectKeeps(cfg, d, id, network, ok, live, d');
        case Inspect(id, seen, live) => RefreshKeeps(cfg, d, id, seen, live, d');
        case TaskExit(id) => StopKeeps(cfg, d, id);
        case CreateNetwork(network) => CreateNetworkKeeps(cfg, d, network);
        case RemoveNetwork(network, ok) => RemoveNetworkKeeps(cfg, d, network, ok);
      }
    }
  }

  lemma StartKeeps(cfg: Config, d: Daemon, id: ContainerID, env: StartEnv, d': Daemon)
    requires Inv(cfg, d) && !Disrupts(cfg, d, Start(id, env)) && d' == StartStep(cfg, d, id, env)
    ensures Inv(cfg, d')
  {
    if id in d.records && id !in d.running && env.taskStarted {
      if JoinFails(d, d.records[id], env) {
        StartFailed(cfg, d, id, env, d');
      } else {
        StartJoined(cfg, d, id, env, d');
      }
    }
  }

  lemma DisruptionBreaks(cfg: Config, d: Daemon, op: Op, d': Daemon)
    requires Inv(cfg, d) && Disrupts(cfg, d, op) && d' == Step(cfg, d, op)
    ensures !Inv(cfg, d')
    ensures !Owned(d') || (op.Start? && Stranded(d', op.id)) || (op.NetworkConnect? && Stranded(d', op.id))
  {
    match op {
      case Create(req, env) => CreateLeaks(cfg, d, req, env, d');
      case Start(id, env) => StartLoses(cfg, d, id, env, d');
      case RemoveContainer(id, env) => RemoveLoses(cfg, d, id, env, d');
      case NetworkConnect(id, network, ok, live) => ConnectForgets(cfg, d, id, network, live, d');
      case _ =>
    }
    if Owned(d') {
      StrandedIsUncovered(d', op.id);
    }
  }

  // ---------------------------------------------------------------------------------------------
  // Runs
  // ---------------------------------------------------------------------------------------------

  ghost function RunOps(cfg: Config, d: Daemon, ops: seq<Op>): Daemon
    decreases |ops|
  {
    if ops == [] then d else RunOps(cfg, Step(cfg, d, ops[0]), ops[1..])
  }

  ghost predicate Undisrupted(cfg: Config, d: Daemon, ops: seq<Op>)
    decreases |ops|
  {
    ops != [] ==>
      && Possible(d, ops[0]) && !Disrupts(cfg, d, ops[0])
      && Undisrupted(cfg, Step(cfg, d, ops[0]), ops[1..])
  }

  /**
   Port ownership over whole runs: whatever creates, starts, failed joins, stops, restarts, removals, network
   changes and inspections happen, the reserved set stays exactly the disjoint union of the registered
   containers' bindings, and no two reservations conflict.
   */
  lemma {:induction false} RunsKeepOwnership(cfg: Config, d: Daemon, ops: seq<Op>)
    requires Inv(cfg, d) && Undisrupted(cfg, d, ops)
    ensures Inv(cfg, RunOps(cfg, d, ops)) && Owned(RunOps(cfg, d, ops))
    decreases |ops|
  {
    if ops != [] {
      StepKeepsOwnership(cfg, d, ops[0], Step(cfg, d, ops[0]));
      RunsKeepOwnership(cfg, Step(cfg, d, ops[0]), ops[1..]);
    }
  }

  /** A daemon that just started: containers recovered without ports, nothing reserved or attached. */
  lemma InitialOwnership(cfg: Config, records: Directory, networks: set<string>, running: set<ContainerID>)
    requires WellKept(records) && forall id <- records :: records[id].portBindings == []
    requires running <= records.Keys && forall n <- networks :: !IsHostOrNone(n)
    ensures Inv(cfg, Daemon({}, records, map[], networks, running))
  {
    var d := Daemon({}, records, map[], networks, running);
    assert forall id <- records :: Keys(records[id]) == {};
  }

  // ---------------------------------------------------------------------------------------------
  // Ownership itself decides which steps disrupt
  // ---------------------------------------------------------------------------------------------

  /**
   A step in which nothing goes wrong: labels are encoded, a task whose join fails is still live and can be
   stopped, a removal reaches every network and completes, and a container connects to a new network only.
   */
  ghost predicate Smooth(d: Daemon, op: Op) {
    match op
    case Create(_, env) => env.labelsOk
    case Start(id, env) => id in d.records && JoinFails(d, d.records[id], env) ==> env.stopOk && !env.exits
    case RemoveContainer(_, env) => d.networks <= env.reached && env.runtimeOk && env.live
    case NetworkConnect(id, network, _, _) => AttachmentKey(id, network) !in d.attachments
    case _ => true
  }

  ghost predicate SmoothRun(cfg: Config, d: Daemon, ops: seq<Op>)
    decreases |ops|
  {
    ops != [] ==>
      Possible(d, ops[0]) && Smooth(d, ops[0]) && SmoothRun(cfg, Step(cfg, d, ops[0]), ops[1..])
  }

  /** A run in which nothing goes wrong and which still ends with ports not owned. */
  ghost predicate Loses(cfg: Config, d: Daemon, ops: seq<Op>) {
    SmoothRun(cfg, d, ops) && !Owned(RunOps(cfg, d, ops))
  }

  /** From an owned state a smooth step never disrupts. */
  lemma SmoothKeeps(cfg: Config, d: Daemon, op: Op)
    requires Inv(cfg, d) && Smooth(d, op)
    ensures !Disrupts(cfg, d, op)
  {
    match op {
      case RemoveContainer(id, env) =>
        if RemoveProceeds(d, id, env) && d.records[id].portBindings != [] {
          assert Releasable(d, id);
          PortsAreKeys(d, id);
          if d.records[id].state != Created {
            CoveredIsReached(cfg, d, id, env.reached);
          }
        }
      case NetworkConnect(id, network, _, _) =>
        if id in d.records && id in d.running {
          assert Releasable(d, id);
          NewNetwork(d, d.records[id], network);
        }
      case _ =>
    }
  }

  /** The attachment that covers a container is not on a network it has no attachment for. */
  lemma NewNetwork(d: Daemon, c: Container, network: string)
    requires Covered(d, c) && AttachmentKey(c.id, network) !in d.attachments
    ensures CoveredElsewhere(d, c, network)
  {
    if Keys(c) != {} {
      var a :| a in d.attachments && a.container == c.id && Held(d.attachments[a]) == Keys(c);
      assert a != AttachmentKey(c.id, network);
    }
  }

  lemma {:induction false} SmoothRunsKeep(cfg: Config, d: Daemon, ops: seq<Op>)
    requires Inv(cfg, d) && SmoothRun(cfg, d, ops)
    ensures Undisrupted(cfg, d, ops)
    decreases |ops|
  {
    if ops != [] {
      SmoothKeeps(cfg, d, ops[0]);
      StepKeepsOwnership(cfg, d, ops[0], Step(cfg, d, ops[0]));
      SmoothRunsKeep(cfg, Step(cfg, d, ops[0]), ops[1..]);
    }
  }

  /**
   The disrupting steps are exactly those that cost ownership: after one, some run in which nothing else goes
   wrong ends with a port reserved for nobody or registered and not reserved; after any other step, none does.
   */
  lemma DisruptsExactly(cfg: Config, d: Daemon, op: Op, d': Daemon)
    requires Inv(cfg, d) && Possible(d, op) && d' == Step(cfg, d, op)
    ensures Disrupts(cfg, d, op) <==> exists ops :: Loses(cfg, d', ops)
  {
    StepKeepsOwnership(cfg, d, op, d');
    if Disrupts(cfg, d, op) {
      DisruptionBreaks(cfg, d, op, d');
      if !Owned(d') {
        assert Loses(cfg, d', []);
      } else {
        var env := RemoveEnv(true, false, Exited, false, d'.networks, true, true);
        StrandedLeaks(cfg, d', op.id, env);
      }
    } else {
      forall ops | SmoothRun(cfg, d', ops)
        ensures Owned(RunOps(cfg, d', ops))
      {
        SmoothRunsKeep(cfg, d', ops);
        RunsKeepOwnership(cfg, d', ops);
      }
    }
  }

  /** Inspecting a container, its task ending, and removing it. */
  ghost function Farewell(id: ContainerID, env: RemoveEnv): seq<Op> {
    [Inspect(id, Exited, true), TaskExit(id), RemoveContainer(id, env)]
  }

  /** A removal in which every call succeeds. */
  ghost predicate Completes(d: Daemon, env: RemoveEnv) {
    env.statusOk && env.seen == Exited && d.networks <= env.reached && env.runtimeOk && env.live
  }

  /** A stranded container that is seen running, exits and is removed leaves its ports reserved for nobody. */
  lemma StrandedLeaks(cfg: Config, d: Daemon, id: ContainerID, env: RemoveEnv)
    requires Stranded(d, id) && Completes(d, env)
    ensures Loses(cfg, d, Farewell(id, env))
  {
    var d1 := RefreshStep(d, id, Exited, true);
    var d2 := d1.(running := d1.running - {id});
    FarewellSteps(d, id, d1, d2);
    UncoveredRemovalLeaks(d2, id, env);
    FarewellRun(cfg, d, id, env, d1, d2);
  }

  lemma FarewellSteps(d: Daemon, id: ContainerID, d1: Daemon, d2: Daemon)
    requires Stranded(d, id) && d1 == RefreshStep(d, id, Exited, true) && d2 == d1.(running := d1.running - {id})
    ensures Owned(d2) && id in d2.records && d2.records[id].state != Created && Keys(d2.records[id]) != {}
    ensures d2.attachments == d.attachments && d2.networks == d.networks && id !in d2.running
  {
    InspectRecords(d, id, d1);
    SameKeysOwned(d, d2);
  }

  /** The start whose join fails and whose task cannot be stopped leads to such a loss. */
  lemma UnstoppableLeaks(cfg: Config, d: Daemon, id: ContainerID, env: StartEnv, last: RemoveEnv, d': Daemon)
    requires Inv(cfg, d) && Disrupts(cfg, d, Start(id, env)) && !env.exits && d' == StartStep(cfg, d, id, env)
    requires Completes(d', last)
    ensures Owned(d') && Loses(cfg, d', Farewell(id, last))
  {
    StartLoses(cfg, d, id, env, d');
    StrandedLeaks(cfg, d', id, last);
  }

  /** So does the network connect that replaces the attachment holding a container's ports. */
  lemma OverwriteLeaks(cfg: Config, d: Daemon, id: ContainerID, network: string, live: bool, last: RemoveEnv, d': Daemon)
    requires Inv(cfg, d) && Disrupts(cfg, d, NetworkConnect(id, network, true, live))
    requires d' == ConnectStep(d, id, network, true, live) && Completes(d', last)
    ensures Owned(d') && Loses(cfg, d', Farewell(id, last))
  {
    ConnectForgets(cfg, d, id, network, live, d');
    StrandedLeaks(cfg, d', id, last);
  }

  /** Inspecting a container with a live task records it as running. */
  lemma InspectRecords(d: Daemon, id: ContainerID, d': Daemon)
    requires WellKept(d.records) && id in d.records && id in d.running && d' == RefreshStep(d, id, Exited, true)
    ensures SameKeys(d, d') && d'.records[id].state == Running && d' == d.(records := d'.records)
  {
    PersistEffect(d, d.records[id].(state := Running), true);
  }

  /** Removing a container that is past the created state and whose attachments hold nothing leaks its ports. */
  lemma UncoveredRemovalLeaks(d: Daemon, id: ContainerID, env: RemoveEnv)
    requires Owned(d) && id in d.records && d.records[id].state != Created && Keys(d.records[id]) != {}
    requires forall a <- d.attachments :: a.container == id ==> Held(d.attachments[a]) == {}
    requires id !in d.running && Completes(d, env)
    ensures !Owned(RemoveStep(d, id, env))
  {
    var d' := RemoveStep(d, id, env);
    var d0 := if env.stopOk then d.(running := d.running - {id}) else d;
    assert FreedBy(d0, id, env.reached) == {};
    assert d'.used == d.used && d'.records == d.records - {id};
    LeftPort(d, id, d');
  }

  lemma RunCons(cfg: Config, d: Daemon, op: Op, ops: seq<Op>)
    ensures RunOps(cfg, d, [op] + ops) == RunOps(cfg, Step(cfg, d, op), ops)
    ensures SmoothRun(cfg, d, [op] + ops) <==> Possible(d, op) && Smooth(d, op) && SmoothRun(cfg, Step(cfg, d, op), ops)
  {
    assert ([op] + ops)[0] == op && ([op] + ops)[1..] == ops;
  }

  lemma FarewellRun(cfg: Config, d: Daemon, id: ContainerID, env: RemoveEnv, d1: Daemon, d2: Daemon)
    requires d1 == RefreshStep(d, id, Exited, true) && d2 == d1.(running := d1.running - {id})
    requires Smooth(d2, RemoveContainer(id, env))
    ensures SmoothRun(cfg, d, Farewell(id, env)) && RunOps(cfg, d, Farewell(id, env)) == RemoveStep(d2, id, env)
  {
    var inspect, exit, remove := Inspect(id, Exited, true), TaskExit(id), RemoveContainer(id, env);
    assert Farewell(id, env) == [inspect] + ([exit] + ([remove] + []));
    RunCons(cfg, d, inspect, [exit] + ([remove] + []));
    RunCons(cfg, d1, exit, [remove] + []);
    RunCons(cfg, d2, remove, []);
  }

  // ---------------------------------------------------------------------------------------------
  // Concrete disruptions
  // ---------------------------------------------------------------------------------------------

  /** One created container publishing port 8080, whose task exits before its network can be joined. */
  lemma EarlyExitExample(cfg: Config) returns (d: Daemon, op: Op)
    ensures Inv(cfg, d) && Possible(d, op) && Disrupts(cfg, d, op) && !Owned(Step(cfg, d, op))
  {
    var b := PortBinding(80, "tcp", DEFAULT_HOST_IP, 8080);
    var c := Container("c1", "web", "app", "app", Created, 0, 0, false, false, "", 0, 0, [b], [DEFAULT_NETWORK]);
    var k := SingleKey(b);
    d := SingleContainer(cfg, c, k);
    var env := StartEnv(true, false, false, (i: nat) => (j: nat) => ProbeFailed, true, true, Exited, true);
    op := Start("c1", env);
    StartLoses(cfg, d, "c1", env, Step(cfg, d, op));
  }

  /** A running container publishing port 8080, attached to the default network, in an owned state. */
  lemma AttachedContainer(cfg: Config) returns (d: Daemon)
    ensures Inv(cfg, d) && "c1" in d.records && "c1" in d.running && d.records["c1"].portBindings != []
    ensures d.networks == {DEFAULT_NETWORK} && d.attachments.Keys == {AttachmentKey("c1", DEFAULT_NETWORK)}
    ensures Keys(d.records["c1"]) != {} && Covered(d, d.records["c1"])
  {
    var b := PortBinding(80, "tcp", DEFAULT_HOST_IP, 8080);
    var c := Container("c1", "web", "app", "app", Created, 0, 0, false, false, "", 0, 0, [b], [DEFAULT_NETWORK]);
    var k := SingleKey(b);
    var created := SingleContainer(cfg, c, k);
    AdoptMeaning({k}, [b]);
    var s := AttachmentState(AdoptResult({k}, [b]).value, [b]);
    AttachKeeps(cfg, created, c, DEFAULT_NETWORK, s);
    var attached := Attach(created, AttachmentKey("c1", DEFAULT_NETWORK), s);
    TaskKeeps(cfg, attached, "c1");
    d := attached.(running := attached.running + {"c1"});
    SameCover(attached, d, c);
  }

  /** Its forced removal, whose runtime call fails after the ports were freed. */
  lemma FailedRemoveExample(cfg: Config) returns (d: Daemon, op: Op)
    ensures Inv(cfg, d) && Possible(d, op) && Disrupts(cfg, d, op) && !Owned(Step(cfg, d, op))
  {
    d := AttachedContainer(cfg);
    var env := RemoveEnv(true, true, Running, true, {DEFAULT_NETWORK}, false, true);
    op := RemoveContainer("c1", env);
    CoveredIsReached(cfg, d, "c1", env.reached);
    RemoveLoses(cfg, d, "c1", env, Step(cfg, d, op));
  }

  /** Its connection to the network it is already on, after which its removal leaks the port. */
  lemma ReconnectExample(cfg: Config) returns (d: Daemon, op: Op, ops: seq<Op>)
    ensures Inv(cfg, d) && Possible(d, op) && Disrupts(cfg, d, op) && Loses(cfg, Step(cfg, d, op), ops)
  {
    d := AttachedContainer(cfg);
    op := NetworkConnect("c1", DEFAULT_NETWORK, true, true);
    var d' := Step(cfg, d, op);
    assert forall a <- d.attachments :: a.network == DEFAULT_NETWORK;
    var last := RemoveEnv(true, false, Exited, false, d'.networks, true, true);
    OverwriteLeaks(cfg, d, "c1", DEFAULT_NETWORK, true, last, d');
    ops := Farewell("c1", last);
  }

  lemma SingleKey(b: PortBinding) returns (k: PortKey)
    requires b.protocol == "tcp" && b.hostIP == DEFAULT_HOST_IP
    ensures BindingKey(b) == Some(k) && BindingKeys([b]) == {k} && k.port == b.hostPort
  {
    LowerWord("tcp");
    TrimClean(DEFAULT_HOST_IP);
    k := PortKey("tcp", DEFAULT_HOST_IP, b.hostPort);
    KeysSnoc([], b);
    assert [] + [b] == [b];
  }

  lemma SingleContainer(cfg: Config, c: Container, k: PortKey) returns (d: Daemon)
    requires c.id != "" && c.state == Created && SoundRecord(c) && Keys(c) == {k} && k.port != 0
    ensures d == Daemon({k}, map[c.id := c], map[], {DEFAULT_NETWORK}, {}) && Inv(cfg, d)
  {
    var empty := Daemon({}, map[], map[], {DEFAULT_NETWORK}, {});
    InitialOwnership(cfg, map[], {DEFAULT_NETWORK}, {});
    assert {} + {k} == {k};
    AddRecord(cfg, empty, c);
    d := empty.(used := {} + {k}, records := empty.records[c.id := c]);
    assert empty.records[c.id := c] == map[c.id := c];
  }
}
