/** Automatic subnet allocation for bridge networks. */
module Subnets {
  import opened Bytes
  import opened Text

  type uint32 = x: int | 0 <= x < 0x1_0000_0000

  /** An IPv4 address by its octets. */
  datatype Addr = Addr(a: byte, b: byte, c: byte, d: byte)

  // ---------------------------------------------------------------------------------------------
  // IPv4 arithmetic and notation
  // ---------------------------------------------------------------------------------------------

  function Value(x: Addr): uint32 {
    ((x.a * 256 + x.b) * 256 + x.c) * 256 + x.d
  }

  function FromValue(v: uint32): Addr {
    Addr(v / 256 / 256 / 256, v / 256 / 256 % 256, v / 256 % 256, v % 256)
  }

  lemma ValueRoundTrip(x: Addr)
    ensures FromValue(Value(x)) == x
  {
    var v1 := x.a * 256 + x.b;
    var v2 := v1 * 256 + x.c;
    assert Value(x) / 256 == v2 && Value(x) % 256 == x.d;
    assert v2 / 256 == v1 && v2 % 256 == x.c;
  }

  /** The sum of two 32-bit numbers, which wraps around. */
  function Sum(a: uint32, b: uint32): uint32 {
    if a + b < 0x1_0000_0000 then a + b else a + b - 0x1_0000_0000
  }

  function AddIPv4(x: Addr, delta: uint32): Addr {
    FromValue(Sum(Value(x), delta))
  }

  /** Adding within the last octet, and carrying a whole /24 into the ones before it. */
  lemma AddIPv4Steps(x: Addr)
    ensures x.d < 255 ==> AddIPv4(x, 1) == x.(d := x.d + 1)
    ensures x.c < 255 ==> AddIPv4(x, 256) == x.(c := x.c + 1)
    ensures x.c == 255 && x.b < 255 ==> AddIPv4(x, 256) == x.(c := 0, b := x.b + 1)
  {
    if x.d < 255 {
      AddIs(x, 1, x.(d := x.d + 1));
    }
    if x.c < 255 {
      AddIs(x, 256, x.(c := x.c + 1));
    }
    if x.c == 255 && x.b < 255 {
      AddIs(x, 256, x.(c := 0, b := x.b + 1));
    }
  }

  /** The address whose number is the sum, or the sum without its 33rd bit. */
  lemma AddIs(x: Addr, delta: uint32, y: Addr)
    requires Value(y) == Value(x) + delta || Value(y) + 0x1_0000_0000 == Value(x) + delta
    ensures AddIPv4(x, delta) == y
  {
    assert Sum(Value(x), delta) == Value(y);
    ValueRoundTrip(y);
  }

  function AddrString(x: Addr): string {
    Decimal(x.a) + "." + Decimal(x.b) + "." + (Decimal(x.c) + ("." + Decimal(x.d)))
  }

  const SUBNET_SIZE := 0x100
  const SUBNET_COUNT := 256

  /** The pool 10.88.0.0/16. */
  predicate InPool(x: Addr) {
    x.a == 10 && x.b == 88
  }

  /** The i-th /24 of the pool. */
  function Candidate(i: byte): Addr {
    Addr(10, 88, i, 0)
  }

  function PrefixString(x: Addr): string {
    AddrString(x) + "/24"
  }

  function DefaultGateway(x: Addr): Addr {
    AddIPv4(x.(d := 0), 1)
  }

  /** Different candidates are written differently. */
  lemma SubnetNamesDiffer(i: byte, j: byte)
    requires PrefixString(Candidate(i)) == PrefixString(Candidate(j))
    ensures i == j
  {
    var head, tail := Decimal(10) + "." + Decimal(88) + ".", "." + Decimal(0);
    Between(head, Decimal(i), Decimal(j), tail);
    DecimalInjective(i, j);
  }

  lemma Between(head: string, x: string, y: string, tail: string)
    requires head + (x + tail) + "/24" == head + (y + tail) + "/24"
    ensures x == y
  {
    var s := head + (x + tail) + "/24";
    assert |x| == |y|;
    assert x == s[|head|..|head| + |x|] == y;
  }

  // ---------------------------------------------------------------------------------------------
  // The search
  // ---------------------------------------------------------------------------------------------

  /** The first number from `i` on, below 256, whose name is not in use. */
  ghost function FirstFree(names: byte -> string, used: set<string>, i: nat): Option<byte>
    requires i <= SUBNET_COUNT
    decreases SUBNET_COUNT - i
  {
    if i == SUBNET_COUNT then None
    else if names(i) in used then FirstFree(names, used, i + 1)
    else Some(i)
  }

  /** The search finds the least free number, and nothing exactly when all are taken. */
  lemma {:induction false} FirstFreeMeaning(names: byte -> string, used: set<string>, i: nat)
    requires i <= SUBNET_COUNT
    ensures FirstFree(names, used, i).None? <==> forall k: byte | i <= k :: names(k) in used
    ensures FirstFree(names, used, i).Some? ==>
              && i <= FirstFree(names, used, i).value
              && names(FirstFree(names, used, i).value) !in used
              && forall k: byte | i <= k < FirstFree(names, used, i).value :: names(k) in used
    decreases SUBNET_COUNT - i
  {
    if i < SUBNET_COUNT {
      FirstFreeMeaning(names, used, i + 1);
    }
  }

  datatype Subnet = Subnet(base: Addr, name: string, gateway: Addr)

  /** How the candidates are written in configuration files. */
  const NAMES: byte -> string := (i: byte) => PrefixString(Candidate(i))

  /** The i-th subnet of the pool, with the gateway on its first host address. */
  function SubnetAt(i: byte): Subnet {
    Subnet(Candidate(i), NAMES(i), Candidate(i).(d := 1))
  }

  /** Walks the pool in steps of one subnet, at most 256 of them, to the least free candidate. */
  method AllocateSubnet(used: set<string>) returns (r: Option<Subnet>)
    ensures var free := FirstFree(NAMES, used, 0);
      r == if free.None? then None else Some(SubnetAt(free.value))
  {
    var addr := Addr(10, 88, 0, 0);
    ghost var i := 0;
    while InPool(addr)
      invariant 0 <= i <= SUBNET_COUNT
      invariant if i < SUBNET_COUNT then addr == Candidate(i) else addr == Addr(10, 89, 0, 0)
      invariant FirstFree(NAMES, used, 0) == FirstFree(NAMES, used, i)
      decreases SUBNET_COUNT - i
    {
      AddIPv4Steps(addr);
      if PrefixString(addr) !in used {
        return Some(Subnet(addr, PrefixString(addr), DefaultGateway(addr)));
      }
      addr := AddIPv4(addr, SUBNET_SIZE);
      i := i + 1;
    }
    return None;
  }

  // ---------------------------------------------------------------------------------------------
  // Networks over time
  // ---------------------------------------------------------------------------------------------

  /** No address lies in both /24s. */
  predicate AddressesDisjoint(a: Subnet, b: Subnet) {
    Value(a.base) + SUBNET_SIZE <= Value(b.base) || Value(b.base) + SUBNET_SIZE <= Value(a.base)
  }

  ghost predicate PoolSubnet(s: Subnet) {
    s == SubnetAt(s.base.c)
  }

  /** Every automatic network has its own subnet of the pool, with a gateway inside it. */
  ghost predicate AllDisjoint(networks: map<string, Subnet>) {
    && (forall n <- networks :: PoolSubnet(networks[n]))
    && (forall n, m | n in networks && m in networks && n != m :: AddressesDisjoint(networks[n], networks[m]))
  }

  lemma DistinctCandidates(a: Subnet, b: Subnet)
    requires PoolSubnet(a) && PoolSubnet(b) && a.name != b.name
    ensures AddressesDisjoint(a, b)
  {
    assert a.base.c != b.base.c;
  }

  /** Pool subnets are 256 addresses from an aligned base, with the gateway one above it. */
  lemma PoolSubnetShape(s: Subnet)
    requires PoolSubnet(s)
    ensures InPool(s.base) && Value(s.base) % SUBNET_SIZE == 0
    ensures Value(s.gateway) == Value(s.base) + 1
  {
  }

  lemma FreshSubnetKeeps(networks: map<string, Subnet>, name: string, s: Subnet)
    requires AllDisjoint(networks) && name !in networks && PoolSubnet(s)
    requires forall n <- networks :: networks[n].name != s.name
    ensures AllDisjoint(networks[name := s])
  {
    forall n <- networks
      ensures AddressesDisjoint(networks[n], s) && AddressesDisjoint(s, networks[n])
    {
      DistinctCandidates(networks[n], s);
    }
  }

  predicate NameChar(c: char, first: bool) {
    || 'a' <= c <= 'z' || 'A' <= c <= 'Z' || '0' <= c <= '9'
    || (!first && (c == '_' || c == '.' || c == '-'))
  }

  predicate ValidNetworkName(name: string) {
    0 < |name| <= 128 && NameChar(name[0], true) && forall i | 0 < i < |name| :: NameChar(name[i], false)
  }

  datatype CreateError =
    | InvalidName
    | ReservedName
    | UnsupportedDriver
    | IPv6Unsupported
    | PoolExhausted
    | NetworkExists

  /** What the request itself gets wrong. */
  function RequestError(name: string, driver: string, ipv6: bool): Option<CreateError> {
    var trimmed := Lower(TrimSpace(driver));
    if !ValidNetworkName(name) then Some(InvalidName)
    else if Lower(name) == "host" || Lower(name) == "none" then Some(ReservedName)
    else if trimmed != "" && trimmed != "bridge" then Some(UnsupportedDriver)
    else if ipv6 then Some(IPv6Unsupported)
    else None
  }

  ghost predicate Alphanumeric(c: char) {
    'a' <= c <= 'z' || 'A' <= c <= 'Z' || '0' <= c <= '9'
  }

  /** Network names: 1 to 128 letters, digits and, after the first, also underscores, dots and dashes. */
  ghost predicate IsNetworkName(name: string) {
    && 1 <= |name| <= 128 && Alphanumeric(name[0])
    && forall i | 1 <= i < |name| :: Alphanumeric(name[i]) || name[i] in {'_', '.', '-'}
  }

  /** Which requests are refused, and why; a driver is recognized in any case and within white space. */
  lemma RequestMeaning(name: string, pre: string, driver: string, post: string, ipv6: bool)
    requires Blank(pre) && Trimmed(driver) && Blank(post)
    ensures var r := RequestError(name, pre + driver + post, ipv6);
      && (r == Some(InvalidName) <==> !IsNetworkName(name))
      && (r == Some(ReservedName) <==> IsNetworkName(name) && Lower(name) in {"host", "none"})
      && (r == Some(UnsupportedDriver) <==>
            && IsNetworkName(name) && Lower(name) !in {"host", "none"}
            && driver != "" && Lower(driver) != "bridge")
      && (r.None? <==>
            && IsNetworkName(name) && Lower(name) !in {"host", "none"}
            && (driver == "" || Lower(driver) == "bridge") && !ipv6)
      && (r.Some? ==> r.value in {InvalidName, ReservedName, UnsupportedDriver, IPv6Unsupported})
  {
    TrimMeaning(pre, driver, post);
    if driver != "" {
      LowerMeaning(driver, 0);
    }
    assert ValidNetworkName(name) <==> IsNetworkName(name);
  }

  /** How the i-th subnet is written. */
  lemma NameText(i: byte)
    ensures NAMES(i) == "10.88." + Decimal(i) + ".0/24"
  {
    assert Decimal(10) == Decimal(1) + [Digit(0)] == "10";
    assert Decimal(88) == Decimal(8) + [Digit(8)] == "88";
    assert Decimal(0) == "0";
  }

  datatype RemoveError = NetworkNotFound | NetworkInUse | BridgeStuck | FileStuck

  /** What a removal meets: attachments tracked or cached, the bridge link, the configuration file. */
  datatype RemovalEnv = RemovalEnv(inUse: bool, bridgeOk: bool, fileOk: bool)

  /** Why a network stays; None for one that goes. */
  function RemovalError(networks: map<string, Subnet>, name: string, env: RemovalEnv): Option<RemoveError> {
    if name !in networks then Some(NetworkNotFound)
    else if env.inUse then Some(NetworkInUse)
    else if !env.bridgeOk then Some(BridgeStuck)
    else if !env.fileOk then Some(FileStuck)
    else None
  }

  datatype NetworkOp =
    | CreateOp(name: string, driver: string, ipv6: bool, foreign: set<string>)
    | RemoveOp(name: string, env: RemovalEnv)

  datatype Outcome = Outcome(networks: map<string, Subnet>, error: Option<CreateError>)

  /** The subnets named in any configuration file, those of other tools included. */
  function UsedSubnets(networks: map<string, Subnet>, foreign: set<string>): set<string> {
    (set n | n in networks :: networks[n].name) + foreign
  }

  /** A new network takes the least pool subnet no file names; its own name must not be taken. */
  ghost function CreateSpec(networks: map<string, Subnet>, rawName: string, driver: string, ipv6: bool,
                            foreign: set<string>): Outcome
  {
    var name := TrimSpace(rawName);
    var wrong := RequestError(name, driver, ipv6);
    var free := FirstFree(NAMES, UsedSubnets(networks, foreign), 0);
    if wrong.Some? then Outcome(networks, wrong)
    else if free.None? then Outcome(networks, Some(PoolExhausted))
    else if name in networks then Outcome(networks, Some(NetworkExists))
    else Outcome(networks[name := SubnetAt(free.value)], None)
  }

  ghost function ApplyOp(networks: map<string, Subnet>, op: NetworkOp): map<string, Subnet> {
    match op
    case CreateOp(name, driver, ipv6, foreign) => CreateSpec(networks, name, driver, ipv6, foreign).networks
    case RemoveOp(name, env) => if RemovalError(networks, name, env).Some? then networks else networks - {name}
  }

  ghost function RunOps(networks: map<string, Subnet>, ops: seq<NetworkOp>): map<string, Subnet>
    decreases |ops|
  {
    if ops == [] then networks else RunOps(ApplyOp(networks, ops[0]), ops[1..])
  }

  lemma CreateKeepsDisjoint(networks: map<string, Subnet>, rawName: string, driver: string, ipv6: bool,
                            foreign: set<string>)
    requires AllDisjoint(networks)
    ensures AllDisjoint(CreateSpec(networks, rawName, driver, ipv6, foreign).networks)
  {
    var used := UsedSubnets(networks, foreign);
    FirstFreeMeaning(NAMES, used, 0);
    var o := CreateSpec(networks, rawName, driver, ipv6, foreign);
    if o.error.None? {
      assert forall n <- networks :: networks[n].name in used;
      FreshSubnetKeeps(networks, TrimSpace(rawName), SubnetAt(FirstFree(NAMES, used, 0).value));
    }
  }

  /** The subnet a create takes is named in no file, and every smaller one is. */
  lemma LeastUnused(networks: map<string, Subnet>, foreign: set<string>)
    ensures var free := FirstFree(NAMES, UsedSubnets(networks, foreign), 0);
      && (free.None? ==>
            forall i: byte :: NAMES(i) in foreign || exists n <- networks :: networks[n].name == NAMES(i))
      && (free.Some? ==>
            && NAMES(free.value) !in foreign && (forall n <- networks :: networks[n].name != NAMES(free.value))
            && forall i: byte | i < free.value ::
                 NAMES(i) in foreign || exists n <- networks :: networks[n].name == NAMES(i))
  {
    FirstFreeMeaning(NAMES, UsedSubnets(networks, foreign), 0);
    assert forall n <- networks :: networks[n].name in UsedSubnets(networks, foreign);
  }

  /** Every sequential run of automatic creates and removals keeps the live subnets pairwise disjoint. */
  lemma {:induction false} RunsStayDisjoint(networks: map<string, Subnet>, ops: seq<NetworkOp>)
    requires AllDisjoint(networks)
    ensures AllDisjoint(RunOps(networks, ops))
    decreases |ops|
  {
    if ops != [] {
      if ops[0].CreateOp? {
        CreateKeepsDisjoint(networks, ops[0].name, ops[0].driver, ops[0].ipv6, ops[0].foreign);
      }
      RunsStayDisjoint(ApplyOp(networks, ops[0]), ops[1..]);
    }
  }

  /** The network configuration directory: one file per network. */
  class NetworkStore {
    var networks: map<string, Subnet>

    constructor ()
      ensures networks == map[] && Valid()
    {
      networks := map[];
    }

    ghost predicate Valid()
      reads this
    {
      AllDisjoint(networks)
    }

    method CreateNetwork(rawName: string, driver: string, ipv6: bool, foreign: set<string>)
      returns (err: Option<CreateError>)
      requires Valid()
      modifies this
      ensures Valid()
      ensures Outcome(networks, err) == CreateSpec(old(networks), rawName, driver, ipv6, foreign)
      ensures err.Some? ==> networks == old(networks)
      ensures err == Some(NetworkExists) ==> TrimSpace(rawName) in old(networks)
      ensures err == Some(PoolExhausted) ==>
                forall i: byte :: NAMES(i) in foreign || exists n <- old(networks) :: old(networks)[n].name == NAMES(i)
      ensures err.None? ==>
                var name := TrimSpace(rawName);
                && name !in old(networks) && name in networks && networks == old(networks)[name := networks[name]]
                && networks[name].name !in foreign
                && (forall n <- old(networks) :: old(networks)[n].name != networks[name].name)
                && forall i: byte | i < networks[name].base.c ::
                     NAMES(i) in foreign || exists n <- old(networks) :: old(networks)[n].name == NAMES(i)
    {
      CreateKeepsDisjoint(networks, rawName, driver, ipv6, foreign);
      LeastUnused(networks, foreign);
      var name := TrimSpace(rawName);
      err := RequestError(name, driver, ipv6);
      if err.Some? {
        return;
      }
      var subnet := AllocateSubnet(UsedSubnets(networks, foreign));
      if subnet.None? {
        return Some(PoolExhausted);
      }
      if name in networks {
        return Some(NetworkExists);
      }
      networks := networks[name := subnet.value];
      return None;
    }

    /** A network goes exactly when it exists, is not in use, and neither its bridge nor its file is stuck. */
    method RemoveNetwork(name: string, env: RemovalEnv) returns (err: Option<RemoveError>)
      requires Valid()
      modifies this
      ensures Valid() && networks == ApplyOp(old(networks), RemoveOp(name, env))
      ensures err.None? <==> name in old(networks) && !env.inUse && env.bridgeOk && env.fileOk
      ensures networks == if err.None? then old(networks) - {name} else old(networks)
      ensures err == Some(NetworkInUse) <==> name in old(networks) && env.inUse
    {
      if name !in networks {
        return Some(NetworkNotFound);
      }
      if env.inUse {
        return Some(NetworkInUse);
      }
      if !env.bridgeOk {
        return Some(BridgeStuck);
      }
      if !env.fileOk {
        return Some(FileStuck);
      }
      networks := networks - {name};
      return None;
    }
  }
}
