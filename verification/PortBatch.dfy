/** Batch allocation, which takes the allocator's lock once per binding, and the allocator itself. */
module PortBatch {
  import opened Bytes
  import opened PortMap

  /** The reservations split by owner: those of the running batch and everybody else's. */
  datatype Shared = Shared(mine: set<PortKey>, theirs: set<PortKey>) {
    function Used(): set<PortKey> {
      mine + theirs
    }
  }

  /** What other callers do between two lock regions: allocate, or release keys they hold. */
  datatype RivalOp =
    | RivalAllocate(protocol: string, hostIP: string, requested: uint16, probe: Probe)
    | RivalRelease(keys: set<PortKey>)

  type Rivals = nat -> seq<RivalOp>

  const NO_RIVALS: Rivals := (i: nat) => []

  function AfterRival(cfg: Config, sh: Shared, op: RivalOp): Shared {
    match op
    case RivalAllocate(protocol, hostIP, requested, probe) =>
      sh.(theirs := Reserve(sh.theirs, AllocateResult(cfg, sh.Used(), protocol, hostIP, requested, probe)))
    case RivalRelease(keys) => sh.(theirs := sh.theirs - keys)
  }

  function AfterRivals(cfg: Config, sh: Shared, ops: seq<RivalOp>): Shared
    decreases |ops|
  {
    if ops == [] then sh else AfterRivals(cfg, AfterRival(cfg, sh, ops[0]), ops[1..])
  }

  datatype Filled = Filled(bindings: seq<PortBinding>, allocs: seq<PortAllocation>)

  datatype BatchOutcome = BatchOutcome(shared: Shared, result: Result<Filled>)

  function Concrete(b: PortBinding, a: PortAllocation): PortBinding {
    PortBinding(b.containerPort, a.protocol, a.hostIP, a.hostPort)
  }

  /** The batch from its i-th binding on; other callers run before each lock region. */
  function BatchFrom(cfg: Config, sh: Shared, bindings: seq<PortBinding>, probes: nat -> Probe, rivals: Rivals,
                     i: nat, filled: Filled): BatchOutcome
    decreases |bindings| - i
  {
    if i >= |bindings| then BatchOutcome(sh, Ok(filled))
    else
      var now := AfterRivals(cfg, sh, rivals(2 * i));
      var b := bindings[i];
      var r := AllocateResult(cfg, now.Used(), b.protocol, b.hostIP, b.hostPort, probes(i));
      if r.Fails? then
        var last := AfterRivals(cfg, now, rivals(2 * i + 1));
        var freed := ReleasedKeys(filled.allocs);
        BatchOutcome(Shared(last.mine - freed, last.theirs - freed), Fails(r.error))
      else
        BatchFrom(cfg, now.(mine := Reserve(now.mine, r)), bindings, probes, rivals, i + 1,
                  Filled(filled.bindings + [Concrete(b, r.value)], filled.allocs + [r.value]))
  }

  const NOTHING := Filled([], [])

  function Batch(cfg: Config, theirs: set<PortKey>, bindings: seq<PortBinding>, probes: nat -> Probe, rivals: Rivals)
    : BatchOutcome
  {
    BatchFrom(cfg, Shared({}, theirs), bindings, probes, rivals, 0, NOTHING)
  }

  // ---------------------------------------------------------------------------------------------
  // Other callers cannot disturb a batch
  // ---------------------------------------------------------------------------------------------

  ghost predicate Coherent(cfg: Config, sh: Shared) {
    Safe(cfg, sh.Used()) && sh.mine !! sh.theirs
  }

  lemma RivalKeepsMine(cfg: Config, sh: Shared, op: RivalOp)
    requires Coherent(cfg, sh)
    ensures Coherent(cfg, AfterRival(cfg, sh, op)) && AfterRival(cfg, sh, op).mine == sh.mine
  {
    if op.RivalAllocate? {
      AllocateSafe(cfg, sh.Used(), op.protocol, op.hostIP, op.requested, op.probe);
      var r := AllocateResult(cfg, sh.Used(), op.protocol, op.hostIP, op.requested, op.probe);
      assert AfterRival(cfg, sh, op).Used() == Reserve(sh.Used(), r);
    }
  }

  lemma {:induction false} RivalsKeepMine(cfg: Config, sh: Shared, ops: seq<RivalOp>)
    requires Coherent(cfg, sh)
    ensures Coherent(cfg, AfterRivals(cfg, sh, ops)) && AfterRivals(cfg, sh, ops).mine == sh.mine
    decreases |ops|
  {
    if ops != [] {
      RivalKeepsMine(cfg, sh, ops[0]);
      RivalsKeepMine(cfg, AfterRival(cfg, sh, ops[0]), ops[1..]);
    }
  }

  // ---------------------------------------------------------------------------------------------
  // What a batch does
  // ---------------------------------------------------------------------------------------------

  /** A binding made concrete: same container port, normalized, a nonzero host port, a fixed one kept. */
  ghost predicate Fills(b: PortBinding, got: PortBinding) {
    && got.containerPort == b.containerPort
    && NormalizeProtocol(b.protocol) == Some(got.protocol) == NormalizeProtocol(got.protocol)
    && got.hostIP == NormalizeHostIP(b.hostIP) == NormalizeHostIP(got.hostIP)
    && got.hostPort != 0 && (b.hostPort != 0 ==> got.hostPort == b.hostPort)
  }

  ghost predicate DistinctKeys(bindings: seq<PortBinding>) {
    forall j, k | 0 <= j < k < |bindings| :: BindingKey(bindings[j]) != BindingKey(bindings[k])
  }

  ghost predicate AllFill(bindings: seq<PortBinding>, got: seq<PortBinding>) {
    |got| <= |bindings| && forall j | 0 <= j < |got| :: Fills(bindings[j], got[j])
  }

  /** The bindings handled so far are filled, and their keys are exactly the batch's reservations. */
  ghost predicate Progress(sh: Shared, bindings: seq<PortBinding>, i: nat, filled: Filled) {
    && |filled.bindings| == i
    && AllFill(bindings, filled.bindings)
    && DistinctKeys(filled.bindings)
    && sh.mine == BindingKeys(filled.bindings) == ReleasedKeys(filled.allocs)
  }

  lemma {:induction false} KeysSnoc(bindings: seq<PortBinding>, b: PortBinding)
    ensures BindingKeys(bindings + [b])
         == BindingKeys(bindings) + (if BindingKey(b).Some? then {BindingKey(b).value} else {})
  {
    if bindings == [] {
      assert [b][1..] == [] && bindings + [b] == [b];
    } else {
      assert (bindings + [b])[0] == bindings[0] && (bindings + [b])[1..] == bindings[1..] + [b];
      KeysSnoc(bindings[1..], b);
    }
  }

  lemma {:induction false} ReleasedSnoc(allocs: seq<PortAllocation>, a: PortAllocation)
    ensures var k := NamedKey(a.protocol, a.hostIP, a.hostPort);
      ReleasedKeys(allocs + [a]) == ReleasedKeys(allocs) + (if k.Some? then {k.value} else {})
  {
    if allocs == [] {
      assert [a][1..] == [] && allocs + [a] == [a];
    } else {
      assert (allocs + [a])[0] == allocs[0] && (allocs + [a])[1..] == allocs[1..] + [a];
      ReleasedSnoc(allocs[1..], a);
    }
  }

  lemma {:induction false} KeyIsIn(bindings: seq<PortBinding>, j: nat)
    requires j < |bindings| && BindingKey(bindings[j]).Some?
    ensures BindingKey(bindings[j]).value in BindingKeys(bindings)
  {
    if j > 0 {
      KeyIsIn(bindings[1..], j - 1);
    }
  }

  lemma ProgressStep(cfg: Config, sh: Shared, bindings: seq<PortBinding>, probe: Probe, i: nat, filled: Filled)
    requires Coherent(cfg, sh) && Progress(sh, bindings, i, filled) && i < |bindings|
    requires AllocateResult(cfg, sh.Used(), bindings[i].protocol, bindings[i].hostIP, bindings[i].hostPort, probe).Ok?
    ensures var b := bindings[i];
      var r := AllocateResult(cfg, sh.Used(), b.protocol, b.hostIP, b.hostPort, probe);
      var sh' := sh.(mine := Reserve(sh.mine, r));
      && Coherent(cfg, sh')
      && Progress(sh', bindings, i + 1,
                  Filled(filled.bindings + [Concrete(b, r.value)], filled.allocs + [r.value]))
  {
    var b := bindings[i];
    var r := AllocateResult(cfg, sh.Used(), b.protocol, b.hostIP, b.hostPort, probe);
    AllocateSafe(cfg, sh.Used(), b.protocol, b.hostIP, b.hostPort, probe);
    assert sh.(mine := Reserve(sh.mine, r)).Used() == Reserve(sh.Used(), r);
    NormalizeProtocolTwice(b.protocol);
    NormalizeHostIPTwice(b.hostIP);
    var got := Concrete(b, r.value);
    KeysSnoc(filled.bindings, got);
    ReleasedSnoc(filled.allocs, r.value);
    DistinctSnoc(filled.bindings, got);
    FillsSnoc(bindings, filled.bindings, got);
  }

  lemma DistinctSnoc(bindings: seq<PortBinding>, b: PortBinding)
    requires DistinctKeys(bindings) && BindingKey(b).Some? && BindingKey(b).value !in BindingKeys(bindings)
    ensures DistinctKeys(bindings + [b])
  {
    forall j | 0 <= j < |bindings|
      ensures BindingKey(bindings[j]) != BindingKey(b)
    {
      if BindingKey(bindings[j]).Some? {
        KeyIsIn(bindings, j);
      }
    }
  }

  lemma FillsSnoc(bindings: seq<PortBinding>, got: seq<PortBinding>, b: PortBinding)
    requires |got| < |bindings| && AllFill(bindings, got) && Fills(bindings[|got|], b)
    ensures AllFill(bindings, got + [b])
  {
  }

  /**
   A batch is all-or-nothing whatever other callers do between its lock regions: if it fails, exactly the
   others' reservations remain; if it succeeds, every binding is filled and exactly the keys of the filled
   bindings, no two of them equal, were added to the others' reservations.
   */
  lemma {:induction false} BatchFromOutcome(cfg: Config, sh: Shared, bindings: seq<PortBinding>, probes: nat -> Probe,
                                            rivals: Rivals, i: nat, filled: Filled)
    requires Coherent(cfg, sh) && Progress(sh, bindings, i, filled)
    ensures var out := BatchFrom(cfg, sh, bindings, probes, rivals, i, filled);
      && Coherent(cfg, out.shared)
      && (out.result.Fails? ==> out.shared.mine == {})
      && (out.result.Ok? ==> Progress(out.shared, bindings, |bindings|, out.result.value))
    decreases |bindings| - i
  {
    if i < |bindings| {
      var now := AfterRivals(cfg, sh, rivals(2 * i));
      RivalsKeepMine(cfg, sh, rivals(2 * i));
      var b := bindings[i];
      var r := AllocateResult(cfg, now.Used(), b.protocol, b.hostIP, b.hostPort, probes(i));
      if r.Fails? {
        RivalsKeepMine(cfg, now, rivals(2 * i + 1));
        var last := AfterRivals(cfg, now, rivals(2 * i + 1));
        assert last.theirs - last.mine == last.theirs;
      } else {
        ProgressStep(cfg, now, bindings, probes(i), i, filled);
        BatchFromOutcome(cfg, now.(mine := Reserve(now.mine, r)), bindings, probes, rivals, i + 1,
                         Filled(filled.bindings + [Concrete(b, r.value)], filled.allocs + [r.value]));
      }
    }
  }

  /**
   The outcome of a whole batch: a failure takes away exactly the batch's own keys, a success keeps them, and
   the filled host ports are pairwise free of conflicts.
   */
  lemma BatchAllOrNothing(cfg: Config, theirs: set<PortKey>, bindings: seq<PortBinding>, probes: nat -> Probe,
                          rivals: Rivals)
    requires Safe(cfg, theirs)
    ensures var out := Batch(cfg, theirs, bindings, probes, rivals);
      var stopped := WhenStopped(cfg, Shared({}, theirs), bindings, probes, rivals, 0);
      && Coherent(cfg, out.shared)
      && out.shared == (if out.result.Fails? then Shared({}, stopped.theirs) else stopped)
      && (out.result.Ok? ==>
            && Progress(out.shared, bindings, |bindings|, out.result.value)
            && var got := out.result.value.bindings;
               forall j, k | 0 <= j < k < |got| && got[j].protocol == got[k].protocol && got[j].hostPort == got[k].hostPort ::
                 got[j].hostIP != got[k].hostIP && !cfg.isWildcard(got[j].hostIP) && !cfg.isWildcard(got[k].hostIP))
  {
    assert Shared({}, theirs).Used() == theirs;
    BatchFromOutcome(cfg, Shared({}, theirs), bindings, probes, rivals, 0, NOTHING);
    var out := Batch(cfg, theirs, bindings, probes, rivals);
    OnlyOwnKeysUndone(cfg, Shared({}, theirs), bindings, probes, rivals, 0, NOTHING, out);
    if out.result.Ok? {
      var got := out.result.value.bindings;
      SafeMeaning(cfg, out.shared.Used());
      forall j, k | 0 <= j < k < |got| && got[j].protocol == got[k].protocol && got[j].hostPort == got[k].hostPort
        ensures got[j].hostIP != got[k].hostIP && !cfg.isWildcard(got[j].hostIP) && !cfg.isWildcard(got[k].hostIP)
      {
        assert Fills(bindings[j], got[j]) && Fills(bindings[k], got[k]);
        KeyIsIn(got, j);
        KeyIsIn(got, k);
      }
    }
  }

  /** The reservations at the moment the batch stops, before it undoes anything. */
  ghost function WhenStopped(cfg: Config, sh: Shared, bindings: seq<PortBinding>, probes: nat -> Probe, rivals: Rivals,
                             i: nat): Shared
    decreases |bindings| - i
  {
    if i >= |bindings| then sh
    else
      var now := AfterRivals(cfg, sh, rivals(2 * i));
      var b := bindings[i];
      var r := AllocateResult(cfg, now.Used(), b.protocol, b.hostIP, b.hostPort, probes(i));
      if r.Fails? then AfterRivals(cfg, now, rivals(2 * i + 1))
      else WhenStopped(cfg, now.(mine := Reserve(now.mine, r)), bindings, probes, rivals, i + 1)
  }

  /** A failing batch takes away exactly its own keys, a succeeding one none. */
  lemma {:induction false} OnlyOwnKeysUndone(cfg: Config, sh: Shared, bindings: seq<PortBinding>, probes: nat -> Probe,
                                             rivals: Rivals, i: nat, filled: Filled, out: BatchOutcome)
    requires Coherent(cfg, sh) && Progress(sh, bindings, i, filled)
    requires out == BatchFrom(cfg, sh, bindings, probes, rivals, i, filled)
    ensures var stopped := WhenStopped(cfg, sh, bindings, probes, rivals, i);
      out.shared == if out.result.Fails? then Shared({}, stopped.theirs) else stopped
    decreases |bindings| - i
  {
    if i < |bindings| {
      var now := AfterRivals(cfg, sh, rivals(2 * i));
      RivalsKeepMine(cfg, sh, rivals(2 * i));
      var b := bindings[i];
      var r := AllocateResult(cfg, now.Used(), b.protocol, b.hostIP, b.hostPort, probes(i));
      if r.Fails? {
        FailureUndoes(cfg, sh, bindings, probes, rivals, i, filled, now);
      } else {
        ProgressStep(cfg, now, bindings, probes(i), i, filled);
        var more := Filled(filled.bindings + [Concrete(b, r.value)], filled.allocs + [r.value]);
        OnlyOwnKeysUndone(cfg, now.(mine := Reserve(now.mine, r)), bindings, probes, rivals, i + 1, more, out);
      }
    }
  }

  lemma FailureUndoes(cfg: Config, sh: Shared, bindings: seq<PortBinding>, probes: nat -> Probe, rivals: Rivals, i: nat,
                      filled: Filled, now: Shared)
    requires Coherent(cfg, sh) && Progress(sh, bindings, i, filled) && i < |bindings|
    requires now == AfterRivals(cfg, sh, rivals(2 * i)) && Coherent(cfg, now) && now.mine == sh.mine
    requires var b := bindings[i];
      AllocateResult(cfg, now.Used(), b.protocol, b.hostIP, b.hostPort, probes(i)).Fails?
    ensures var out := BatchFrom(cfg, sh, bindings, probes, rivals, i, filled);
      out.result.Fails? && out.shared == Shared({}, WhenStopped(cfg, sh, bindings, probes, rivals, i).theirs)
  {
    RivalsKeepMine(cfg, now, rivals(2 * i + 1));
    Undo(cfg, AfterRivals(cfg, now, rivals(2 * i + 1)));
  }

  /** Taking away the batch's own keys leaves the others'. */
  lemma Undo(cfg: Config, sh: Shared)
    requires Coherent(cfg, sh)
    ensures Shared(sh.mine - sh.mine, sh.theirs - sh.mine) == Shared({}, sh.theirs)
  {
    assert sh.mine - sh.mine == {} && sh.theirs - sh.mine == sh.theirs;
  }

  lemma {:induction false} AloneBatch(cfg: Config, sh: Shared, bindings: seq<PortBinding>, probes: nat -> Probe,
                                      i: nat, filled: Filled)
    requires Coherent(cfg, sh) && Progress(sh, bindings, i, filled)
    ensures BatchFrom(cfg, sh, bindings, probes, NO_RIVALS, i, filled).shared.theirs == sh.theirs
    decreases |bindings| - i
  {
    if i < |bindings| {
      var b := bindings[i];
      assert AfterRivals(cfg, sh, NO_RIVALS(2 * i)) == sh;
      assert AfterRivals(cfg, sh, NO_RIVALS(2 * i + 1)) == sh;
      var r := AllocateResult(cfg, sh.Used(), b.protocol, b.hostIP, b.hostPort, probes(i));
      if r.Ok? {
        ProgressStep(cfg, sh, bindings, probes(i), i, filled);
        AloneBatch(cfg, sh.(mine := Reserve(sh.mine, r)), bindings, probes, i + 1,
                   Filled(filled.bindings + [Concrete(b, r.value)], filled.allocs + [r.value]));
      }
    }
  }

  /** A batch nobody interleaves with leaves the others' reservations as they were. */
  lemma UndisturbedBatch(cfg: Config, used: set<PortKey>, bindings: seq<PortBinding>, probes: nat -> Probe)
    requires Safe(cfg, used)
    ensures Batch(cfg, used, bindings, probes, NO_RIVALS).shared.theirs == used
  {
    assert Shared({}, used).Used() == used;
    AloneBatch(cfg, Shared({}, used), bindings, probes, 0, NOTHING);
  }

  // ---------------------------------------------------------------------------------------------
  // The CNI port mappings
  // ---------------------------------------------------------------------------------------------

  function BuildPortMappings(bindings: seq<PortBinding>): Result<seq<PortMapping>> {
    if bindings == [] then Ok([])
    else
      var b := bindings[0];
      if b.hostPort == 0 || b.containerPort == 0 then Fails(UnallocatedPort)
      else if NormalizeProtocol(b.protocol).None? then Fails(UnsupportedProtocol)
      else
        var rest := BuildPortMappings(bindings[1..]);
        if rest.Fails? then rest
        else Ok([PortMapping(b.hostPort, b.containerPort, NormalizeProtocol(b.protocol).value,
                             NormalizeHostIP(b.hostIP))] + rest.value)
  }

  /** Mappings carry every binding's ports, protocol and address, in order; a zero port or another protocol is refused. */
  lemma {:induction false} MappingsMeaning(bindings: seq<PortBinding>)
    ensures var r := BuildPortMappings(bindings);
      && (r.Ok? <==> forall i | 0 <= i < |bindings| :: Mappable(bindings[i]))
      && (r.Ok? ==>
            && |r.value| == |bindings|
            && forall i | 0 <= i < |bindings| ::
                 && r.value[i].hostPort == bindings[i].hostPort && r.value[i].containerPort == bindings[i].containerPort
                 && NormalizeProtocol(bindings[i].protocol) == Some(r.value[i].protocol)
                 && r.value[i].hostIP == NormalizeHostIP(bindings[i].hostIP))
  {
    if bindings != [] {
      MappingsMeaning(bindings[1..]);
      assert bindings == [bindings[0]] + bindings[1..];
      assert forall i | 0 <= i < |bindings| - 1 :: bindings[1..][i] == bindings[i + 1];
    }
  }

  ghost predicate Mappable(b: PortBinding) {
    b.hostPort > 0 && b.containerPort > 0 && NormalizeProtocol(b.protocol).Some?
  }

  /** The error of a failing batch is that of one of its allocations. */
  lemma {:induction false} BatchErrorIsReal(cfg: Config, sh: Shared, bindings: seq<PortBinding>, probes: nat -> Probe,
                                            rivals: Rivals, i: nat, filled: Filled)
    requires BatchFrom(cfg, sh, bindings, probes, rivals, i, filled).result.Fails?
    ensures exists j, used | i <= j < |bindings| ::
              AllocateResult(cfg, used, bindings[j].protocol, bindings[j].hostIP, bindings[j].hostPort, probes(j))
              == Fails(BatchFrom(cfg, sh, bindings, probes, rivals, i, filled).result.error)
    decreases |bindings| - i
  {
    var now := AfterRivals(cfg, sh, rivals(2 * i));
    var b := bindings[i];
    var r := AllocateResult(cfg, now.Used(), b.protocol, b.hostIP, b.hostPort, probes(i));
    if r.Ok? {
      BatchErrorIsReal(cfg, now.(mine := Reserve(now.mine, r)), bindings, probes, rivals, i + 1,
                       Filled(filled.bindings + [Concrete(b, r.value)], filled.allocs + [r.value]));
    }
  }

  /** Bindings filled by a batch are refused exactly when one of them has container port 0. */
  lemma {:induction false} FilledMappings(bindings: seq<PortBinding>, got: seq<PortBinding>)
    requires |got| == |bindings| && AllFill(bindings, got)
    ensures BuildPortMappings(got).Ok? <==> NoZeroPort(bindings)
  {
    if got != [] {
      assert Fills(bindings[0], got[0]);
      FillsTail(bindings, got);
      FilledMappings(bindings[1..], got[1..]);
      NoZeroCons(bindings);
    }
  }

  ghost predicate NoZeroPort(bindings: seq<PortBinding>) {
    forall i | 0 <= i < |bindings| :: bindings[i].containerPort != 0
  }

  lemma FillsTail(bindings: seq<PortBinding>, got: seq<PortBinding>)
    requires AllFill(bindings, got) && got != []
    ensures AllFill(bindings[1..], got[1..])
  {
  }

  lemma NoZeroCons(bindings: seq<PortBinding>)
    requires bindings != []
    ensures NoZeroPort(bindings) <==> bindings[0].containerPort != 0 && NoZeroPort(bindings[1..])
  {
    assert bindings == [bindings[0]] + bindings[1..];
  }
}
