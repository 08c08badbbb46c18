/** Host-port reservations: wildcard-aware conflicts, all-or-nothing batches, adoption and release. */
module PortMap {
  import opened Bytes
  import opened Text

  type uint16 = x: int | 0 <= x < 0x1_0000

  datatype PortKey = PortKey(protocol: string, hostIP: string, port: uint16)

  datatype PortBinding = PortBinding(containerPort: uint16, protocol: string, hostIP: string, hostPort: uint16)

  datatype PortAllocation = PortAllocation(protocol: string, hostIP: string, hostPort: uint16)

  datatype PortMapping = PortMapping(hostPort: uint16, containerPort: uint16, protocol: string, hostIP: string)

  datatype PortError =
    | PortInUse
    | NoFreeHostPort
    | UnallocatedPort
    | PortNotReserved
    | UnsupportedProtocol
    | ProbeError

  datatype Result<+T> = Ok(value: T) | Fails(error: PortError)

  /** What the operating system answers to one bind probe. */
  datatype ProbeAnswer = Bound(port: uint16) | AddressInUse | ProbeFailed

  /** The answers to the successive probes of one allocation. */
  type Probe = nat -> ProbeAnswer

  /**
   The allocator's fixed parts: which host addresses stand for every address (an address that does not
   parse, or the unspecified one), and how often a dynamic request is retried.
   */
  datatype Config = Config(isWildcard: string -> bool, attempts: nat)

  const DEFAULT_HOST_IP := "0.0.0.0"

  function NormalizeProtocol(protocol: string): Option<string> {
    var p := Lower(TrimSpace(protocol));
    if p == "" || p == "tcp" then Some("tcp") else if p == "udp" then Some("udp") else None
  }

  function NormalizeHostIP(ip: string): string {
    var trimmed := TrimSpace(ip);
    if trimmed == "" then DEFAULT_HOST_IP else trimmed
  }

  /** A protocol is recognized in any case and within white space; none at all means tcp. */
  lemma ProtocolMeaning(pre: string, w: string, post: string)
    requires Blank(pre) && Trimmed(w) && Blank(post)
    ensures NormalizeProtocol(pre + w + post)
         == if w == "" || Lower(w) == "tcp" then Some("tcp") else if Lower(w) == "udp" then Some("udp") else None
  {
    TrimMeaning(pre, w, post);
    if w != "" {
      LowerMeaning(w, 0);
    }
  }

  /** An address is taken as it stands within white space; none at all means every address. */
  lemma HostIPMeaning(pre: string, ip: string, post: string)
    requires Blank(pre) && Trimmed(ip) && Blank(post)
    ensures NormalizeHostIP(pre + ip + post) == if ip == "" then "0.0.0.0" else ip
  {
    TrimMeaning(pre, ip, post);
  }

  lemma NormalizeHostIPTwice(ip: string)
    ensures NormalizeHostIP(NormalizeHostIP(ip)) == NormalizeHostIP(ip)
  {
    TrimIdempotent(ip);
    TrimClean(DEFAULT_HOST_IP);
  }

  lemma TrimClean(s: string)
    requires s != "" && !IsSpace(s[0]) && !IsSpace(s[|s| - 1])
    ensures TrimSpace(s) == s
  {
  }

  lemma NormalizeProtocolTwice(protocol: string)
    ensures NormalizeProtocol(protocol).Some? ==>
              NormalizeProtocol(NormalizeProtocol(protocol).value) == NormalizeProtocol(protocol)
  {
    var p := NormalizeProtocol(protocol);
    if p.Some? {
      LowerWord(p.value);
    }
  }

  lemma LowerWord(w: string)
    requires w == "tcp" || w == "udp"
    ensures Lower(TrimSpace(w)) == w
  {
    TrimClean(w);
    assert w[1..][1..][1..] == "";
    assert Lower(w[1..]) == [w[1]] + Lower(w[1..][1..]);
    assert Lower(w[1..][1..]) == [w[2]] + Lower("");
  }

  function KeyOf(a: PortAllocation): PortKey {
    PortKey(a.protocol, a.hostIP, a.hostPort)
  }

  /** Two reservations that cannot coexist. */
  predicate Conflict(cfg: Config, a: PortKey, b: PortKey) {
    && a.protocol == b.protocol && a.port == b.port
    && (a.hostIP == b.hostIP || cfg.isWildcard(a.hostIP) || cfg.isWildcard(b.hostIP))
  }

  predicate Conflicts(cfg: Config, used: set<PortKey>, k: PortKey) {
    exists u <- used :: Conflict(cfg, u, k)
  }

  /** The allocator's invariant: no two reservations conflict and port 0 is never reserved. */
  ghost predicate Safe(cfg: Config, used: set<PortKey>) {
    && (forall a, b | a in used && b in used && a != b :: !Conflict(cfg, a, b))
    && (forall a <- used :: a.port != 0)
  }

  /** Reservations of one protocol and port have different addresses, none of which stands for every address. */
  lemma SafeMeaning(cfg: Config, used: set<PortKey>)
    requires Safe(cfg, used)
    ensures forall a, b | a in used && b in used && a != b && a.protocol == b.protocol && a.port == b.port ::
              a.hostIP != b.hostIP && !cfg.isWildcard(a.hostIP) && !cfg.isWildcard(b.hostIP)
    ensures forall a <- used :: a.port > 0
  {
    forall a, b | a in used && b in used && a != b && a.protocol == b.protocol && a.port == b.port
      ensures a.hostIP != b.hostIP && !cfg.isWildcard(a.hostIP) && !cfg.isWildcard(b.hostIP)
    {
      assert !Conflict(cfg, a, b);
    }
  }

  /** What is in use for a request. */
  lemma ConflictsMeaning(cfg: Config, used: set<PortKey>, proto: string, ip: string, port: uint16)
    ensures Conflicts(cfg, used, PortKey(proto, ip, port)) <==>
              exists u <- used :: u.protocol == proto && u.port == port
                                  && (u.hostIP == ip || cfg.isWildcard(u.hostIP) || cfg.isWildcard(ip))
  {
    var k := PortKey(proto, ip, port);
    forall u <- used
      ensures Conflict(cfg, u, k) <==> u.protocol == proto && u.port == port
                                       && (u.hostIP == ip || cfg.isWildcard(u.hostIP) || cfg.isWildcard(ip))
    {
    }
  }

  // ---------------------------------------------------------------------------------------------
  // One allocation
  // ---------------------------------------------------------------------------------------------

  function AllocateFixed(cfg: Config, used: set<PortKey>, proto: string, ip: string, requested: uint16, probe: Probe)
    : Result<PortAllocation>
  {
    if Conflicts(cfg, used, PortKey(proto, ip, requested)) then Fails(PortInUse)
    else
      match probe(0)
      case AddressInUse => Fails(PortInUse)
      case ProbeFailed => Fails(ProbeError)
      case Bound(port) =>
        if port != requested then Fails(NoFreeHostPort) else Ok(PortAllocation(proto, ip, port))
  }

  /** A dynamic request from its i-th attempt on. */
  function AllocateDynamic(cfg: Config, used: set<PortKey>, proto: string, ip: string, probe: Probe, i: nat)
    : Result<PortAllocation>
    decreases cfg.attempts - i
  {
    if i >= cfg.attempts then Fails(NoFreeHostPort)
    else
      match probe(i)
      case AddressInUse => Fails(ProbeError)
      case ProbeFailed => Fails(ProbeError)
      case Bound(port) =>
        if port == 0 then Fails(NoFreeHostPort)
        else if Conflicts(cfg, used, PortKey(proto, ip, port))
        then AllocateDynamic(cfg, used, proto, ip, probe, i + 1)
        else Ok(PortAllocation(proto, ip, port))
  }

  function AllocateResult(cfg: Config, used: set<PortKey>, protocol: string, hostIP: string, requested: uint16,
                          probe: Probe): Result<PortAllocation>
  {
    var proto := NormalizeProtocol(protocol);
    if proto.None? then Fails(UnsupportedProtocol)
    else if requested != 0 then AllocateFixed(cfg, used, proto.value, NormalizeHostIP(hostIP), requested, probe)
    else AllocateDynamic(cfg, used, proto.value, NormalizeHostIP(hostIP), probe, 0)
  }

  function Reserve(used: set<PortKey>, r: Result<PortAllocation>): set<PortKey> {
    if r.Ok? then used + {KeyOf(r.value)} else used
  }

  /** An allocation is normalized, conflicts with nothing, and is the requested port if one was given. */
  ghost predicate Granted(cfg: Config, used: set<PortKey>, protocol: string, hostIP: string, requested: uint16,
                          a: PortAllocation)
  {
    && NormalizeProtocol(protocol) == Some(a.protocol)
    && a.hostIP == NormalizeHostIP(hostIP)
    && a.hostPort != 0 && (requested != 0 ==> a.hostPort == requested)
    && !Conflicts(cfg, used, KeyOf(a))
  }

  lemma {:induction false} DynamicGranted(cfg: Config, used: set<PortKey>, proto: string, ip: string, probe: Probe,
                                          i: nat)
    ensures var r := AllocateDynamic(cfg, used, proto, ip, probe, i);
      r.Ok? ==>
        && r.value.protocol == proto && r.value.hostIP == ip && r.value.hostPort != 0
        && !Conflicts(cfg, used, KeyOf(r.value))
    decreases cfg.attempts - i
  {
    if i < cfg.attempts {
      DynamicGranted(cfg, used, proto, ip, probe, i + 1);
    }
  }

  /**
   A request for a fixed port: in use exactly if a reservation of the same protocol and port has the same or
   a wildcard address, or wants it from a wildcard address, or the system says so; granted exactly if it is
   free and the system binds that very port.
   */
  lemma FixedMeaning(cfg: Config, used: set<PortKey>, protocol: string, hostIP: string, requested: uint16, probe: Probe)
    requires requested != 0 && NormalizeProtocol(protocol).Some?
    ensures var r := AllocateResult(cfg, used, protocol, hostIP, requested, probe);
      var proto, ip := NormalizeProtocol(protocol).value, NormalizeHostIP(hostIP);
      var taken := exists u <- used :: u.protocol == proto && u.port == requested
                                       && (u.hostIP == ip || cfg.isWildcard(u.hostIP) || cfg.isWildcard(ip));
      && (r == Fails(PortInUse) <==> taken || probe(0) == AddressInUse)
      && (r.Ok? <==> !taken && probe(0) == Bound(requested))
      && (r.Ok? ==> r.value == PortAllocation(proto, ip, requested))
      && (r == Fails(ProbeError) <==> !taken && probe(0) == ProbeFailed)
  {
    ConflictsMeaning(cfg, used, NormalizeProtocol(protocol).value, NormalizeHostIP(hostIP), requested);
  }

  /** A probe answer that offers a usable port, or one that is already reserved. */
  ghost predicate Offers(cfg: Config, used: set<PortKey>, proto: string, ip: string, answer: ProbeAnswer, busy: bool) {
    answer.Bound? && answer.port != 0 && (Conflicts(cfg, used, PortKey(proto, ip, answer.port)) <==> busy)
  }

  /** The n-th answer is the first that offers a free port, and only reserved ones were offered before. */
  ghost predicate FirstOffer(cfg: Config, used: set<PortKey>, proto: string, ip: string, probe: Probe, i: nat, n: nat) {
    && i <= n < cfg.attempts && Offers(cfg, used, proto, ip, probe(n), false)
    && forall j: nat | i <= j < n :: Offers(cfg, used, proto, ip, probe(j), true)
  }

  /** A dynamic request succeeds exactly when a free port is offered in time, and takes the first such port. */
  lemma {:induction false} DynamicTakesFirst(cfg: Config, used: set<PortKey>, proto: string, ip: string, probe: Probe,
                                             i: nat, n: nat)
    ensures FirstOffer(cfg, used, proto, ip, probe, i, n) ==>
              AllocateDynamic(cfg, used, proto, ip, probe, i) == Ok(PortAllocation(proto, ip, probe(n).port))
    ensures AllocateDynamic(cfg, used, proto, ip, probe, i).Ok? ==>
              exists m: nat :: FirstOffer(cfg, used, proto, ip, probe, i, m)
    decreases cfg.attempts - i
  {
    if i < cfg.attempts {
      DynamicTakesFirst(cfg, used, proto, ip, probe, i + 1, n);
      if Offers(cfg, used, proto, ip, probe(i), true) {
        if AllocateDynamic(cfg, used, proto, ip, probe, i).Ok? {
          var m: nat :| FirstOffer(cfg, used, proto, ip, probe, i + 1, m);
          assert FirstOffer(cfg, used, proto, ip, probe, i, m);
        }
      } else if AllocateDynamic(cfg, used, proto, ip, probe, i).Ok? {
        assert FirstOffer(cfg, used, proto, ip, probe, i, i);
      }
    }
  }

  lemma {:induction false} OtherFailures(cfg: Config, used: set<PortKey>, proto: string, ip: string, probe: Probe, i: nat)
    ensures AllocateDynamic(cfg, used, proto, ip, probe, i) != Fails(UnsupportedProtocol)
    decreases cfg.attempts - i
  {
    if i < cfg.attempts {
      OtherFailures(cfg, used, proto, ip, probe, i + 1);
    }
  }

  /** Why a dynamic request fails: the first answer that offers no port, or only reserved ports in all attempts. */
  lemma {:induction false} DynamicFailure(cfg: Config, used: set<PortKey>, proto: string, ip: string, probe: Probe,
                                          i: nat, n: nat)
    requires i <= n <= cfg.attempts && forall j: nat | i <= j < n :: Offers(cfg, used, proto, ip, probe(j), true)
    ensures n == cfg.attempts ==> AllocateDynamic(cfg, used, proto, ip, probe, i) == Fails(NoFreeHostPort)
    ensures n < cfg.attempts && !probe(n).Bound? ==>
              AllocateDynamic(cfg, used, proto, ip, probe, i) == Fails(ProbeError)
    ensures n < cfg.attempts && probe(n) == Bound(0) ==>
              AllocateDynamic(cfg, used, proto, ip, probe, i) == Fails(NoFreeHostPort)
    decreases cfg.attempts - i
  {
    if i < n {
      assert Offers(cfg, used, proto, ip, probe(i), true);
      DynamicFailure(cfg, used, proto, ip, probe, i + 1, n);
    }
  }

  /** Whatever the probe returns, a successful allocation is sound and keeps the allocator safe. */
  lemma AllocateSafe(cfg: Config, used: set<PortKey>, protocol: string, hostIP: string, requested: uint16,
                     probe: Probe)
    requires Safe(cfg, used)
    ensures var r := AllocateResult(cfg, used, protocol, hostIP, requested, probe);
      && Safe(cfg, Reserve(used, r))
      && (r.Ok? ==> Granted(cfg, used, protocol, hostIP, requested, r.value) && KeyOf(r.value) !in used)
      && (r.Ok? ==>
            forall u <- used | u.protocol == r.value.protocol && u.port == r.value.hostPort ::
              u.hostIP != r.value.hostIP && !cfg.isWildcard(u.hostIP) && !cfg.isWildcard(r.value.hostIP))
      && (r == Fails(UnsupportedProtocol) <==> NormalizeProtocol(protocol).None?)
  {
    var r := AllocateResult(cfg, used, protocol, hostIP, requested, probe);
    if NormalizeProtocol(protocol).Some? {
      DynamicGranted(cfg, used, NormalizeProtocol(protocol).value, NormalizeHostIP(hostIP), probe, 0);
    }
    if NormalizeProtocol(protocol).Some? {
      OtherFailures(cfg, used, NormalizeProtocol(protocol).value, NormalizeHostIP(hostIP), probe, 0);
    }
    if r.Ok? {
      var k := KeyOf(r.value);
      ConflictsMeaning(cfg, used, k.protocol, k.hostIP, k.port);
      assert Conflict(cfg, k, k);
      forall u <- used
        ensures !Conflict(cfg, u, k) && !Conflict(cfg, k, u)
      {
        assert !Conflicts(cfg, used, k);
      }
    }
  }

  // ---------------------------------------------------------------------------------------------
  // Release and adoption
  // ---------------------------------------------------------------------------------------------

  /** The key a reservation names, after normalization; None for an unsupported protocol. */
  function NamedKey(protocol: string, hostIP: string, port: uint16): Option<PortKey> {
    var proto := NormalizeProtocol(protocol);
    if proto.None? then None else Some(PortKey(proto.value, NormalizeHostIP(hostIP), port))
  }

  function ReleasedKeys(allocs: seq<PortAllocation>): set<PortKey> {
    if allocs == [] then {}
    else
      var k := NamedKey(allocs[0].protocol, allocs[0].hostIP, allocs[0].hostPort);
      (if k.Some? then {k.value} else {}) + ReleasedKeys(allocs[1..])
  }

  function BindingKey(b: PortBinding): Option<PortKey> {
    NamedKey(b.protocol, b.hostIP, b.hostPort)
  }

  function AdoptResult(used: set<PortKey>, bindings: seq<PortBinding>): Result<seq<PortAllocation>> {
    if bindings == [] then Ok([])
    else
      var k := BindingKey(bindings[0]);
      if k.None? then Fails(UnsupportedProtocol)
      else if k.value !in used then Fails(PortNotReserved)
      else
        var rest := AdoptResult(used, bindings[1..]);
        if rest.Fails? then rest
        else Ok([PortAllocation(k.value.protocol, k.value.hostIP, k.value.port)] + rest.value)
  }

  /** The keys of bindings that name one. */
  function BindingKeys(bindings: seq<PortBinding>): set<PortKey> {
    if bindings == [] then {}
    else (if BindingKey(bindings[0]).Some? then {BindingKey(bindings[0]).value} else {}) + BindingKeys(bindings[1..])
  }

  /** Releasing frees exactly the keys the allocations name. */
  lemma {:induction false} ReleasedMeaning(allocs: seq<PortAllocation>, k: PortKey)
    ensures k in ReleasedKeys(allocs) <==>
              exists i | 0 <= i < |allocs| ::
                && NormalizeProtocol(allocs[i].protocol) == Some(k.protocol)
                && NormalizeHostIP(allocs[i].hostIP) == k.hostIP && allocs[i].hostPort == k.port
  {
    if allocs != [] {
      ReleasedMeaning(allocs[1..], k);
      assert allocs == [allocs[0]] + allocs[1..];
    }
  }

  lemma {:induction false} BindingKeysMeaning(bindings: seq<PortBinding>, k: PortKey)
    ensures k in BindingKeys(bindings) <==>
              exists i | 0 <= i < |bindings| ::
                && NormalizeProtocol(bindings[i].protocol) == Some(k.protocol)
                && NormalizeHostIP(bindings[i].hostIP) == k.hostIP && bindings[i].hostPort == k.port
  {
    if bindings != [] {
      BindingKeysMeaning(bindings[1..], k);
      assert bindings == [bindings[0]] + bindings[1..];
    }
  }

  /** Adopted allocations are the bindings, normalized and in order; a refusal says which kind of binding it met. */
  lemma AdoptedInOrder(used: set<PortKey>, bindings: seq<PortBinding>)
    ensures var r := AdoptResult(used, bindings);
      && (r.Ok? ==>
            && |r.value| == |bindings|
            && forall i | 0 <= i < |bindings| ::
                 && NormalizeProtocol(bindings[i].protocol) == Some(r.value[i].protocol)
                 && r.value[i].hostIP == NormalizeHostIP(bindings[i].hostIP)
                 && r.value[i].hostPort == bindings[i].hostPort)
      && (r.Fails? ==>
            exists i | 0 <= i < |bindings| ::
              if NormalizeProtocol(bindings[i].protocol).None? then r.error == UnsupportedProtocol
              else r.error == PortNotReserved && BindingKey(bindings[i]).value !in used)
  {
    var r := AdoptResult(used, bindings);
    if r.Ok? {
      forall i | 0 <= i < |bindings|
        ensures |r.value| == |bindings| && BindingKey(bindings[i]) == Some(KeyOf(r.value[i]))
      {
        AdoptedAt(used, bindings, i);
      }
      AdoptedCount(used, bindings);
    } else {
      AdoptRefused(used, bindings);
    }
  }

  lemma {:induction false} AdoptedCount(used: set<PortKey>, bindings: seq<PortBinding>)
    requires AdoptResult(used, bindings).Ok?
    ensures |AdoptResult(used, bindings).value| == |bindings|
  {
    if bindings != [] {
      AdoptedCount(used, bindings[1..]);
      AdoptedCons(used, bindings);
    }
  }

  lemma {:induction false} AdoptedAt(used: set<PortKey>, bindings: seq<PortBinding>, i: nat)
    requires AdoptResult(used, bindings).Ok? && i < |bindings|
    ensures |AdoptResult(used, bindings).value| == |bindings|
    ensures BindingKey(bindings[i]) == Some(KeyOf(AdoptResult(used, bindings).value[i]))
  {
    AdoptedCount(used, bindings);
    if i > 0 {
      AdoptedAt(used, bindings[1..], i - 1);
      assert AdoptResult(used, bindings).value[i] == AdoptResult(used, bindings[1..]).value[i - 1];
    }
  }

  lemma {:induction false} AdoptRefused(used: set<PortKey>, bindings: seq<PortBinding>)
    requires AdoptResult(used, bindings).Fails?
    ensures exists i | 0 <= i < |bindings| ::
              if BindingKey(bindings[i]).None? then AdoptResult(used, bindings).error == UnsupportedProtocol
              else AdoptResult(used, bindings).error == PortNotReserved && BindingKey(bindings[i]).value !in used
  {
    AdoptedCons(used, bindings);
    var k := BindingKey(bindings[0]);
    if k.Some? && k.value in used {
      AdoptRefused(used, bindings[1..]);
      var i :| 0 <= i < |bindings[1..]|
        && if BindingKey(bindings[1..][i]).None? then AdoptResult(used, bindings[1..]).error == UnsupportedProtocol
           else AdoptResult(used, bindings[1..]).error == PortNotReserved && BindingKey(bindings[1..][i]).value !in used;
      assert bindings[i + 1] == bindings[1..][i];
    }
  }

  lemma AdoptedCons(used: set<PortKey>, bindings: seq<PortBinding>)
    requires bindings != []
    ensures var k, r, rest := BindingKey(bindings[0]), AdoptResult(used, bindings), AdoptResult(used, bindings[1..]);
      && (k.None? ==> r == Fails(UnsupportedProtocol))
      && (k.Some? && k.value !in used ==> r == Fails(PortNotReserved))
      && (k.Some? && k.value in used && rest.Fails? ==> r == rest)
      && (k.Some? && k.value in used && rest.Ok? ==>
            r == Ok([PortAllocation(k.value.protocol, k.value.hostIP, k.value.port)] + rest.value))
    ensures forall i | 0 <= i < |bindings| - 1 :: bindings[1..][i] == bindings[i + 1]
  {
  }

  lemma NamedKeyStable(protocol: string, hostIP: string, port: uint16)
    ensures var k := NamedKey(protocol, hostIP, port);
      k.Some? ==> NamedKey(k.value.protocol, k.value.hostIP, port) == k
  {
    NormalizeProtocolTwice(protocol);
    NormalizeHostIPTwice(hostIP);
  }

  /**
   Adoption succeeds exactly when every binding names a reserved key, and the allocations it returns are
   those whose release frees the bindings' keys.
   */
  lemma {:induction false} AdoptMeaning(used: set<PortKey>, bindings: seq<PortBinding>)
    ensures AdoptResult(used, bindings).Ok? <==>
              forall i | 0 <= i < |bindings| :: BindingKey(bindings[i]).Some? && BindingKey(bindings[i]).value in used
    ensures AdoptResult(used, bindings).Ok? ==>
              ReleasedKeys(AdoptResult(used, bindings).value) == BindingKeys(bindings) <= used
  {
    if bindings != [] {
      AdoptMeaning(used, bindings[1..]);
      var k := BindingKey(bindings[0]);
      if k.Some? {
        NamedKeyStable(bindings[0].protocol, bindings[0].hostIP, bindings[0].hostPort);
      }
      if forall i | 0 <= i < |bindings| :: BindingKey(bindings[i]).Some? && BindingKey(bindings[i]).value in used {
        forall i | 0 <= i < |bindings| - 1
          ensures BindingKey(bindings[1..][i]).Some? && BindingKey(bindings[1..][i]).value in used
        {
          assert bindings[1..][i] == bindings[i + 1];
        }
      }
      var r := AdoptResult(used, bindings);
      if r.Ok? {
        assert r.value[1..] == AdoptResult(used, bindings[1..]).value;
        forall i | 0 <= i < |bindings|
          ensures BindingKey(bindings[i]).Some? && BindingKey(bindings[i]).value in used
        {
          if i > 0 {
            assert bindings[i] == bindings[1..][i - 1];
          }
        }
      }
    }
  }
}
