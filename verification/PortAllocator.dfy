/** The allocator object, and its safety over whole runs. */
module PortAllocators {
  import opened Bytes
  import opened PortMap
  import opened PortBatch

  /** An adoption that continues after `allocs`. */
  ghost function After(allocs: seq<PortAllocation>, r: Result<seq<PortAllocation>>): Result<seq<PortAllocation>> {
    if r.Ok? then Ok(allocs + r.value) else r
  }

  lemma AfterNothing(r: Result<seq<PortAllocation>>)
    ensures After([], r) == r
  {
    if r.Ok? {
      assert [] + r.value == r.value;
    }
  }

  lemma AdoptStep(used: set<PortKey>, bindings: seq<PortBinding>, i: nat, allocs: seq<PortAllocation>)
    requires i < |bindings|
    ensures var k := BindingKey(bindings[i]);
      After(allocs, AdoptResult(used, bindings[i..]))
      == if k.None? then Fails(UnsupportedProtocol)
         else if k.value !in used then Fails(PortNotReserved)
         else After(allocs + [PortAllocation(k.value.protocol, k.value.hostIP, k.value.port)],
                    AdoptResult(used, bindings[i + 1..]))
  {
    assert bindings[i..][1..] == bindings[i + 1..];
    var k := BindingKey(bindings[i]);
    var rest := AdoptResult(used, bindings[i + 1..]);
    if k.Some? && rest.Ok? {
      Assoc(allocs, [PortAllocation(k.value.protocol, k.value.hostIP, k.value.port)], rest.value);
    }
  }

  class PortAllocator {
    var used: set<PortKey>
    const cfg: Config

    constructor (cfg: Config)
      ensures used == {} && this.cfg == cfg
    {
      used := {};
      this.cfg := cfg;
    }

    /** Scans the reservations for one that conflicts. */
    method ConflictsLocked(k: PortKey) returns (found: bool)
      ensures found == Conflicts(cfg, used, k)
      ensures found <==> exists u <- used :: u.protocol == k.protocol && u.port == k.port
                                             && (u.hostIP == k.hostIP || cfg.isWildcard(u.hostIP) || cfg.isWildcard(k.hostIP))
    {
      ConflictsMeaning(cfg, used, k.protocol, k.hostIP, k.port);
      var rest := used;
      while rest != {}
        invariant rest <= used
        invariant forall u <- used - rest :: !Conflict(cfg, u, k)
        decreases rest
      {
        var u :| u in rest;
        if Conflict(cfg, u, k) {
          return true;
        }
        rest := rest - {u};
      }
      return false;
    }

    method Allocate(protocol: string, hostIP: string, requested: uint16, probe: Probe)
      returns (r: Result<PortAllocation>)
      modifies this
      ensures r == AllocateResult(cfg, old(used), protocol, hostIP, requested, probe)
      ensures used == Reserve(old(used), r)
      ensures requested != 0 && NormalizeProtocol(protocol).Some? ==>
                (r == Fails(PortInUse) <==>
                   || probe(0) == AddressInUse
                   || exists u <- old(used) ::
                        && NormalizeProtocol(protocol) == Some(u.protocol) && u.port == requested
                        && (|| u.hostIP == NormalizeHostIP(hostIP) || cfg.isWildcard(u.hostIP)
                            || cfg.isWildcard(NormalizeHostIP(hostIP))))
    {
      if requested != 0 && NormalizeProtocol(protocol).Some? {
        FixedMeaning(cfg, used, protocol, hostIP, requested, probe);
      }
      var proto := NormalizeProtocol(protocol);
      if proto.None? {
        return Fails(UnsupportedProtocol);
      }
      var ip := NormalizeHostIP(hostIP);
      if requested != 0 {
        r := AllocateExactly(proto.value, ip, requested, probe);
        return;
      }
      var i := 0;
      while i < cfg.attempts
        invariant 0 <= i <= cfg.attempts && used == old(used)
        invariant AllocateResult(cfg, used, protocol, hostIP, requested, probe)
               == AllocateDynamic(cfg, used, proto.value, ip, probe, i)
      {
        var answer := probe(i);
        if !answer.Bound? {
          return Fails(ProbeError);
        }
        if answer.port == 0 {
          return Fails(NoFreeHostPort);
        }
        var busy := ConflictsLocked(PortKey(proto.value, ip, answer.port));
        if !busy {
          used := used + {PortKey(proto.value, ip, answer.port)};
          return Ok(PortAllocation(proto.value, ip, answer.port));
        }
        i := i + 1;
      }
      return Fails(NoFreeHostPort);
    }

    method AllocateExactly(proto: string, ip: string, requested: uint16, probe: Probe)
      returns (r: Result<PortAllocation>)
      modifies this
      ensures r == AllocateFixed(cfg, old(used), proto, ip, requested, probe)
      ensures used == Reserve(old(used), r)
    {
      var busy := ConflictsLocked(PortKey(proto, ip, requested));
      if busy {
        return Fails(PortInUse);
      }
      var answer := probe(0);
      match answer {
        case AddressInUse => r := Fails(PortInUse);
        case ProbeFailed => r := Fails(ProbeError);
        case Bound(port) =>
          if port != requested {
            r := Fails(NoFreeHostPort);
          } else {
            used := used + {PortKey(proto, ip, port)};
            r := Ok(PortAllocation(proto, ip, port));
          }
      }
    }

    method Release(allocs: seq<PortAllocation>)
      modifies this
      ensures used == old(used) - ReleasedKeys(allocs)
    {
      var i := 0;
      while i < |allocs|
        invariant 0 <= i <= |allocs|
        invariant used - ReleasedKeys(allocs[i..]) == old(used) - ReleasedKeys(allocs)
      {
        assert allocs[i..][1..] == allocs[i + 1..];
        var k := NamedKey(allocs[i].protocol, allocs[i].hostIP, allocs[i].hostPort);
        if k.Some? {
          used := used - {k.value};
        }
        i := i + 1;
      }
    }

    /** Takes over existing reservations without changing any. */
    method AdoptBindings(bindings: seq<PortBinding>) returns (r: Result<seq<PortAllocation>>)
      ensures r == AdoptResult(used, bindings)
    {
      var allocs := [];
      var i := 0;
      assert bindings[0..] == bindings;
      AfterNothing(AdoptResult(used, bindings));
      while i < |bindings|
        invariant 0 <= i <= |bindings|
        invariant AdoptResult(used, bindings) == After(allocs, AdoptResult(used, bindings[i..]))
      {
        var k := BindingKey(bindings[i]);
        AdoptStep(used, bindings, i, allocs);
        if k.None? {
          return Fails(UnsupportedProtocol);
        }
        if k.value !in used {
          return Fails(PortNotReserved);
        }
        allocs := allocs + [PortAllocation(k.value.protocol, k.value.hostIP, k.value.port)];
        i := i + 1;
      }
      assert allocs + [] == allocs;
      return Ok(allocs);
    }

    method IsUsed(protocol: string, hostIP: string, port: uint16) returns (r: bool)
      ensures r <==>
                exists u <- used :: NormalizeProtocol(protocol) == Some(u.protocol) && u.port == port
                                    && (|| u.hostIP == NormalizeHostIP(hostIP) || cfg.isWildcard(u.hostIP)
                                        || cfg.isWildcard(NormalizeHostIP(hostIP)))
    {
      var proto := NormalizeProtocol(protocol);
      if proto.None? {
        return false;
      }
      r := ConflictsLocked(PortKey(proto.value, NormalizeHostIP(hostIP), port));
    }

    /** What other callers do while a batch holding `mine` waits for the lock. */
    method Interfere(ops: seq<RivalOp>, mine: set<PortKey>, ghost sh: Shared)
      requires used == sh.Used() && mine == sh.mine && mine !! sh.theirs
      requires Coherent(cfg, sh)
      modifies this
      ensures used == AfterRivals(cfg, sh, ops).Used()
    {
      ghost var now := sh;
      var i := 0;
      while i < |ops|
        invariant 0 <= i <= |ops|
        invariant Coherent(cfg, now) && now.mine == mine && used == now.Used()
        invariant AfterRivals(cfg, sh, ops) == AfterRivals(cfg, now, ops[i..])
      {
        assert ops[i..][1..] == ops[i + 1..];
        RivalKeepsMine(cfg, now, ops[i]);
        match ops[i] {
          case RivalAllocate(protocol, hostIP, requested, probe) =>
            var r := Allocate(protocol, hostIP, requested, probe);
          case RivalRelease(keys) =>
            used := used - (keys - mine);
        }
        now := AfterRival(cfg, now, ops[i]);
        i := i + 1;
      }
    }

    /**
     Reserves every binding, or nothing: on a failure exactly the others' reservations remain, on success
     exactly the keys of the filled bindings were added to them.
     */
    method AllocateBindings(bindings: seq<PortBinding>, probes: nat -> Probe, rivals: Rivals)
      returns (r: Result<Filled>)
      requires Safe(cfg, used)
      modifies this
      ensures r == Batch(cfg, old(used), bindings, probes, rivals).result
      ensures used == Batch(cfg, old(used), bindings, probes, rivals).shared.Used()
    {
      var filled := NOTHING;
      var mine: set<PortKey> := {};
      ghost var sh := Shared({}, used);
      ghost var out := Batch(cfg, used, bindings, probes, rivals);
      var i := 0;
      while i < |bindings|
        invariant 0 <= i <= |bindings|
        invariant Coherent(cfg, sh) && Progress(sh, bindings, i, filled)
        invariant used == sh.Used() && mine == sh.mine
        invariant out == BatchFrom(cfg, sh, bindings, probes, rivals, i, filled)
      {
        RivalsKeepMine(cfg, sh, rivals(2 * i));
        Interfere(rivals(2 * i), mine, sh);
        sh := AfterRivals(cfg, sh, rivals(2 * i));
        var b := bindings[i];
        var alloc := Allocate(b.protocol, b.hostIP, b.hostPort, probes(i));
        if alloc.Fails? {
          RivalsKeepMine(cfg, sh, rivals(2 * i + 1));
          Interfere(rivals(2 * i + 1), mine, sh);
          Release(filled.allocs);
          r := Fails(alloc.error);
          return;
        }
        ProgressStep(cfg, sh, bindings, probes(i), i, filled);
        sh := sh.(mine := Reserve(sh.mine, alloc));
        mine := mine + {KeyOf(alloc.value)};
        filled := Filled(filled.bindings + [Concrete(b, alloc.value)], filled.allocs + [alloc.value]);
        i := i + 1;
      }
      return Ok(filled);
    }
  }

  // ---------------------------------------------------------------------------------------------
  // Runs
  // ---------------------------------------------------------------------------------------------

  datatype AllocatorOp =
    | AllocateOne(protocol: string, hostIP: string, requested: uint16, probe: Probe)
    | AllocateMany(bindings: seq<PortBinding>, probes: nat -> Probe, rivals: Rivals)
    | Adopt(bindings: seq<PortBinding>)
    | Free(allocs: seq<PortAllocation>)

  ghost function AfterOp(cfg: Config, used: set<PortKey>, op: AllocatorOp): set<PortKey> {
    match op
    case AllocateOne(protocol, hostIP, requested, probe) =>
      Reserve(used, AllocateResult(cfg, used, protocol, hostIP, requested, probe))
    case AllocateMany(bindings, probes, rivals) => Batch(cfg, used, bindings, probes, rivals).shared.Used()
    case Adopt(_) => used
    case Free(allocs) => used - ReleasedKeys(allocs)
  }

  ghost function AfterOps(cfg: Config, used: set<PortKey>, ops: seq<AllocatorOp>): set<PortKey>
    decreases |ops|
  {
    if ops == [] then used else AfterOps(cfg, AfterOp(cfg, used, ops[0]), ops[1..])
  }

  /** After any sequence of operations no two reservations conflict, whatever the probes return. */
  lemma {:induction false} RunSafe(cfg: Config, used: set<PortKey>, ops: seq<AllocatorOp>)
    requires Safe(cfg, used)
    ensures Safe(cfg, AfterOps(cfg, used, ops))
    ensures forall a, b | a in AfterOps(cfg, used, ops) && b in AfterOps(cfg, used, ops)
                          && a != b && a.protocol == b.protocol && a.port == b.port ::
              a.hostIP != b.hostIP && !cfg.isWildcard(a.hostIP) && !cfg.isWildcard(b.hostIP)
    decreases |ops|
  {
    RunSafely(cfg, used, ops);
    SafeMeaning(cfg, AfterOps(cfg, used, ops));
  }

  lemma {:induction false} RunSafely(cfg: Config, used: set<PortKey>, ops: seq<AllocatorOp>)
    requires Safe(cfg, used)
    ensures Safe(cfg, AfterOps(cfg, used, ops))
    decreases |ops|
  {
    if ops != [] {
      match ops[0] {
        case AllocateOne(protocol, hostIP, requested, probe) =>
          AllocateSafe(cfg, used, protocol, hostIP, requested, probe);
        case AllocateMany(bindings, probes, rivals) =>
          BatchAllOrNothing(cfg, used, bindings, probes, rivals);
        case Adopt(_) =>
        case Free(_) =>
      }
      RunSafely(cfg, AfterOp(cfg, used, ops[0]), ops[1..]);
    }
  }
}
