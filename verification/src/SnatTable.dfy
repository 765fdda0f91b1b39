/** The SNAT mapping table: one map that holds, for every translated flow, a forward entry (looked up by
    outgoing packets) and a reverse entry (looked up by replies).

    Random values, the clock and the outcome of every fallible map helper are inputs of a step. */
module SnatTable {
  import opened Net
  import opened PortRange

  /** struct ipv4_nat_entry; `addr`/`port` is to_saddr/to_sport or to_daddr/to_dport. */
  datatype NatEntry = NatEntry(created: U64, needsCt: bool, addr: Addr, port: Port)

  datatype NatTarget = NatTarget(
    addr: Addr, minPort: Port, maxPort: Port, needsCt: bool, fromLocalEndpoint: bool, egressGateway: bool)

  type Table = map<Tuple, NatEntry>

  const SNAT_COLLISION_RETRIES: nat := 32

  /** What the environment answers during one step. */
  datatype Env = Env(
    now: U64,
    keepRand: U16,            // random draw of the first probe
    retryRand: U16,           // random draw of the second probe
    mapFound: bool,           // get_cluster_snat_map_v4 returned a map
    ctOk: bool,               // conntrack lookup and creation for needs_ct succeeded
    reverseFails: set<nat>,   // probes whose insertion fails although the key is free
    forwardOk: bool,          // insertion of the forward entry
    rollbackOk: bool,         // deletion of the fresh reverse entry after a failed forward insertion
    deleteForwardOk: bool,    // deletion of a stale forward entry
    deleteReverseOk: bool,    // deletion of a stale reverse entry
    restoreOk: bool)          // insertion of the missing half of a pair

  /** set_v4_rtuple */
  function ReverseKey(o: Tuple, e: NatEntry): Tuple {
    Tuple(e.addr, o.daddr, e.port, o.dport, o.nexthdr, F_IN)
  }

  function ForwardKey(r: Tuple, e: NatEntry): Tuple {
    Tuple(r.saddr, e.addr, r.sport, e.port, r.nexthdr, F_OUT)
  }

  /** The port tried in the i-th round of the allocation loop. */
  function Probe(target: NatTarget, sport: Port, env: Env, i: nat): Port {
    if i == 0 then TryKeep(target.minPort, target.maxPort, sport, env.keepRand)
    else if i == 1 then Clamp(target.minPort, target.maxPort, env.retryRand)
    else Clamp(target.minPort, target.maxPort, (Probe(target, sport, env, i - 1) + 1) % 0x1_0000)
  }

  function Candidate(o: Tuple, target: NatTarget, env: Env, i: nat): NatEntry {
    NatEntry(env.now, target.needsCt, target.addr, Probe(target, o.sport, env, i))
  }

  predicate Free(m: Table, o: Tuple, target: NatTarget, env: Env, i: nat) {
    ReverseKey(o, Candidate(o, target, env, i)) !in m && i !in env.reverseFails
  }

  /** The first probe from `i` on whose reverse key could be inserted. */
  function FirstFree(m: Table, o: Tuple, target: NatTarget, env: Env, i: nat): (r: Option<nat>)
    requires i <= SNAT_COLLISION_RETRIES
    ensures r.Some? ==> i <= r.value < SNAT_COLLISION_RETRIES && Free(m, o, target, env, r.value)
    ensures forall j :: i <= j < (if r.Some? then r.value else SNAT_COLLISION_RETRIES) ==>
                          !Free(m, o, target, env, j)
    decreases SNAT_COLLISION_RETRIES - i
  {
    if i == SNAT_COLLISION_RETRIES then None
    else if Free(m, o, target, env, i) then Some(i)
    else FirstFree(m, o, target, env, i + 1)
  }

  /** snat_v4_new_mapping as a function of the table. */
  function Allocate(m: Table, o: Tuple, target: NatTarget, env: Env): (Table, Result<NatEntry>) {
    match FirstFree(m, o, target, env, 0)
    case None => (m, Err(NoMapping))
    case Some(i) =>
      var e := Candidate(o, target, env, i);
      var rkey := ReverseKey(o, e);
      var reserved := m[rkey := NatEntry(env.now, target.needsCt, o.saddr, o.sport)];
      if env.forwardOk then (reserved[o := e], Ok(e))
      else (if env.rollbackOk then reserved - {rkey} else reserved, Err(NoMapping))
  }

  /** snat_v4_nat_handle_mapping as a function of the table. */
  function Outgoing(m: Table, t: Tuple, target: NatTarget, env: Env): (Table, Result<NatEntry>) {
    if !env.mapFound then (m, Err(NoSnatMap))
    else if target.needsCt && !env.ctOk then (m, Err(CtError))
    else if t !in m then Allocate(m, t, target, env)
    else
      var e := m[t];
      var rkey := ReverseKey(t, e);
      if target.addr == e.addr && target.needsCt == e.needsCt then
        if rkey in m then (m, Ok(e))
        else if env.restoreOk then (m[rkey := NatEntry(env.now, target.needsCt, t.saddr, t.sport)], Ok(e))
        else (m, Err(NoMapping))
      else if !env.deleteForwardOk then (m, Err(MapDelete))
      else Allocate(if env.deleteReverseOk then m - {t, rkey} else m - {t}, t, target, env)
  }

  /** snat_v4_rev_nat_handle_mapping as a function of the table. */
  function Incoming(m: Table, t: Tuple, env: Env): (Table, Result<NatEntry>) {
    if !env.mapFound then (m, Err(NoSnatMap))
    else if t !in m then (m, Err(NoMapping))
    else
      var e := m[t];
      var okey := ForwardKey(t, e);
      if okey !in m && !env.restoreOk then (m, Err(NoMapping))
      else
        var m' := if okey in m then m else m[okey := NatEntry(env.now, e.needsCt, t.daddr, t.dport)];
        if e.needsCt && !env.ctOk then (m', Err(CtError)) else (m', Ok(e))
  }

  // ---------------------------------------------------------------- invariants

  /** Only forward and reverse keys occur. */
  ghost predicate WellKeyed(m: Table) {
    forall k :: k in m ==> k.flags == F_OUT || k.flags == F_IN
  }

  ghost predicate HasReverse(m: Table, k: Tuple)
    requires k in m
  {
    var r := ReverseKey(k, m[k]);
    r in m && m[r].addr == k.saddr && m[r].port == k.sport && m[r].needsCt == m[k].needsCt
  }

  ghost predicate HasForward(m: Table, k: Tuple)
    requires k in m
  {
    var o := ForwardKey(k, m[k]);
    o in m && m[o].addr == k.daddr && m[o].port == k.dport && m[o].needsCt == m[k].needsCt
  }

  /** Every forward entry has a reverse entry that points back to it. */
  ghost predicate ForwardBacked(m: Table) {
    WellKeyed(m) && forall k :: k in m && k.flags == F_OUT ==> HasReverse(m, k)
  }

  /** Forward and reverse entries come in mutually pointing pairs. */
  ghost predicate Paired(m: Table) {
    ForwardBacked(m) && forall k :: k in m && k.flags == F_IN ==> HasForward(m, k)
  }

  /** The table as the source keeps it, updated in place. */
  class SnatMap {
    var table: Table

    constructor ()
      ensures table == map[]
    {
      table := map[];
    }

    /** snat_v4_new_mapping */
    method NewMapping(o: Tuple, target: NatTarget, env: Env) returns (r: Result<NatEntry>)
      requires o.flags == F_OUT
      modifies this
      ensures (table, r) == Allocate(old(table), o, target, env)
      // a mapping is only ever built on a key nobody held, and failure with a working rollback leaves no trace
      ensures r.Ok? ==> ReverseKey(o, r.value) !in old(table)
      ensures r.Ok? && target.minPort <= target.maxPort ==> target.minPort <= r.value.port <= target.maxPort
      ensures r.Err? && env.rollbackOk ==> table == old(table)
    {
      hide Probe, Clamp, TryKeep;
      var rstate := NatEntry(env.now, target.needsCt, o.saddr, o.sport);
      var ostate := NatEntry(env.now, target.needsCt, target.addr, 0);
      var retries, port := ReserveReverse(o, ostate, rstate, target, env);
      if retries == SNAT_COLLISION_RETRIES { return Err(NoMapping); }
      ProbeInRange(target, o.sport, env, retries);
      ostate := ostate.(port := port);
      var rkey := ReverseKey(o, ostate);
      if env.forwardOk {
        table := table[o := ostate];
        return Ok(ostate);
      }
      if env.rollbackOk {
        table := table - {rkey};
        assert table == old(table);
      }
      r := Err(NoMapping);
    }

    /** The allocation loop of snat_v4_new_mapping: reserve the first reverse key that can be inserted. */
    method ReserveReverse(o: Tuple, ostate: NatEntry, rstate: NatEntry, target: NatTarget, env: Env)
      returns (retries: nat, port: Port)
      requires ostate == NatEntry(env.now, target.needsCt, target.addr, 0)
      modifies this
      ensures retries <= SNAT_COLLISION_RETRIES
      ensures FirstFree(old(table), o, target, env, 0) ==
              if retries < SNAT_COLLISION_RETRIES then Some(retries) else None
      ensures retries < SNAT_COLLISION_RETRIES ==>
                port == Probe(target, o.sport, env, retries) &&
                table == old(table)[ReverseKey(o, ostate.(port := port)) := rstate]
      ensures retries == SNAT_COLLISION_RETRIES ==> table == old(table)
    {
      hide Clamp, TryKeep;
      port := TryKeep(target.minPort, target.maxPort, o.sport, env.keepRand);
      retries := 0;
      while retries < SNAT_COLLISION_RETRIES
        invariant retries <= SNAT_COLLISION_RETRIES
        invariant table == old(table)
        invariant port == Probe(target, o.sport, env, retries)
        invariant FirstFree(table, o, target, env, 0) == FirstFree(table, o, target, env, retries)
      {
        var rkey := ReverseKey(o, ostate.(port := port));
        if rkey !in table && retries !in env.reverseFails {
          table := table[rkey := rstate];
          return;
        }
        port := Clamp(target.minPort, target.maxPort,
                      if retries != 0 then (port + 1) % 0x1_0000 else env.retryRand);
        retries := retries + 1;
      }
    }

    /** snat_v4_nat_handle_mapping */
    method HandleOutgoing(t: Tuple, target: NatTarget, env: Env) returns (r: Result<NatEntry>)
      requires t.flags == F_OUT
      modifies this
      ensures (table, r) == Outgoing(old(table), t, target, env)
      ensures ForwardBacked(old(table)) ==> ForwardBacked(table)
      ensures Paired(old(table)) && env.rollbackOk && env.deleteReverseOk ==> Paired(table)
    {
      OutgoingKeeps(table, t, target, env);
      if !env.mapFound { return Err(NoSnatMap); }
      if target.needsCt && !env.ctOk { return Err(CtError); }
      if t in table {
        var state := table[t];
        var rkey := ReverseKey(t, state);
        if target.addr == state.addr && target.needsCt == state.needsCt {
          if rkey !in table {
            if !env.restoreOk { return Err(NoMapping); }
            table := table[rkey := NatEntry(env.now, target.needsCt, t.saddr, t.sport)];
          }
          return Ok(state);
        }
        if !env.deleteForwardOk { return Err(MapDelete); }
        table := table - {t};
        if rkey in table && env.deleteReverseOk {
          table := table - {rkey};
        }
        assert table == if env.deleteReverseOk then old(table) - {t, rkey} else old(table) - {t};
      }
      r := NewMapping(t, target, env);
    }

    /** snat_v4_rev_nat_handle_mapping */
    method HandleIncoming(t: Tuple, env: Env) returns (r: Result<NatEntry>)
      requires t.flags == F_IN
      modifies this
      ensures (table, r) == Incoming(old(table), t, env)
      ensures ForwardBacked(old(table)) ==> ForwardBacked(table)
      ensures Paired(old(table)) ==> table == old(table)
    {
      IncomingKeeps(table, t, env);
      if !env.mapFound { return Err(NoSnatMap); }
      if t !in table { return Err(NoMapping); }
      var state := table[t];
      var okey := ForwardKey(t, state);
      if okey !in table {
        if !env.restoreOk { return Err(NoMapping); }
        table := table[okey := NatEntry(env.now, state.needsCt, t.daddr, t.dport)];
      }
      if state.needsCt && !env.ctOk { return Err(CtError); }
      r := Ok(state);
    }
  }

  // ---------------------------------------------------------------- one step

  lemma ProbeInRange(target: NatTarget, sport: Port, env: Env, i: nat)
    ensures target.minPort <= target.maxPort ==>
              target.minPort <= Probe(target, sport, env, i) <= target.maxPort
  {
    if target.minPort <= target.maxPort {
      if i == 0 {
        ClampInRange(target.minPort, target.maxPort, env.keepRand);
      } else if i == 1 {
        ClampInRange(target.minPort, target.maxPort, env.retryRand);
      } else {
        ClampInRange(target.minPort, target.maxPort, (Probe(target, sport, env, i - 1) + 1) % 0x1_0000);
      }
    }
  }

  /** A stray reverse entry, or a whole pair, under a fresh key keeps the other pairs. */
  lemma AddedKeeps(m: Table, o: Tuple, e: NatEntry, r: NatEntry)
    requires o.flags == F_OUT && o !in m && ForwardBacked(m) && ReverseKey(o, e) !in m
    requires r.addr == o.saddr && r.port == o.sport && r.needsCt == e.needsCt
    ensures var reserved := m[ReverseKey(o, e) := r];
            ForwardBacked(reserved) && ForwardBacked(reserved[o := e]) && (Paired(m) ==> Paired(reserved[o := e]))
  {
    var reserved := m[ReverseKey(o, e) := r];
    forall k | k in m && k.flags == F_OUT ensures HasReverse(reserved, k) && HasReverse(reserved[o := e], k) {
      assert HasReverse(m, k);
    }
    if Paired(m) {
      forall k | k in m && k.flags == F_IN ensures HasForward(reserved[o := e], k) {
        assert HasForward(m, k);
      }
    }
  }

  /** Allocating for a flow that has no forward entry keeps both halves of the pairing. */
  lemma AllocateKeeps(m: Table, o: Tuple, target: NatTarget, env: Env)
    requires o.flags == F_OUT && o !in m && ForwardBacked(m)
    ensures ForwardBacked(Allocate(m, o, target, env).0)
    ensures Paired(m) && env.rollbackOk ==> Paired(Allocate(m, o, target, env).0)
  {
    hide Probe, ForwardBacked, Paired;
    var free := FirstFree(m, o, target, env, 0);
    if free.Some? {
      var e := Candidate(o, target, env, free.value);
      AddedKeeps(m, o, e, NatEntry(env.now, target.needsCt, o.saddr, o.sport));
      if !env.forwardOk && env.rollbackOk {
        assert Allocate(m, o, target, env).0 == m;
      }
    }
  }

  /** Under ForwardBacked a reverse key belongs to one flow only. */
  lemma ReverseKeyOwner(m: Table, a: Tuple, b: Tuple)
    requires ForwardBacked(m)
    requires a in m && b in m && a.flags == b.flags == F_OUT
    requires ReverseKey(a, m[a]) == ReverseKey(b, m[b])
    ensures a == b
  {
    assert HasReverse(m, a) && HasReverse(m, b);
  }

  /** Removing a stale flow (with or without its reverse entry) keeps the other flows intact. */
  lemma RemoveKeeps(m: Table, t: Tuple, both: bool)
    requires ForwardBacked(m) && t in m && t.flags == F_OUT
    ensures var m' := if both then m - {t, ReverseKey(t, m[t])} else m - {t};
            ForwardBacked(m') && (Paired(m) && both ==> Paired(m'))
  {
    var rkey := ReverseKey(t, m[t]);
    var m' := if both then m - {t, rkey} else m - {t};
    forall k | k in m' && k.flags == F_OUT
      ensures HasReverse(m', k)
    {
      assert HasReverse(m, k);
      if ReverseKey(k, m[k]) == rkey { ReverseKeyOwner(m, k, t); }
    }
    if Paired(m) && both {
      forall k | k in m' && k.flags == F_IN
        ensures HasForward(m', k)
      {
        assert HasForward(m, k);
        assert ForwardKey(k, m[k]) == t ==> k == rkey;
      }
    }
  }

  lemma OutgoingKeeps(m: Table, t: Tuple, target: NatTarget, env: Env)
    requires t.flags == F_OUT
    ensures ForwardBacked(m) ==> ForwardBacked(Outgoing(m, t, target, env).0)
    ensures Paired(m) && env.rollbackOk && env.deleteReverseOk ==> Paired(Outgoing(m, t, target, env).0)
  {
    if ForwardBacked(m) {
      if t !in m {
        AllocateKeeps(m, t, target, env);
      } else {
        assert HasReverse(m, t);
        RemoveKeeps(m, t, env.deleteReverseOk);
        AllocateKeeps(if env.deleteReverseOk then m - {t, ReverseKey(t, m[t])} else m - {t}, t, target, env);
      }
    }
  }

  lemma IncomingKeeps(m: Table, t: Tuple, env: Env)
    requires t.flags == F_IN
    ensures ForwardBacked(m) ==> ForwardBacked(Incoming(m, t, env).0)
    ensures Paired(m) ==> Incoming(m, t, env).0 == m
  {
    var m' := Incoming(m, t, env).0;
    if ForwardBacked(m) && m' != m {
      forall k | k in m' && k.flags == F_OUT
        ensures HasReverse(m', k)
      {
        if k in m { assert HasReverse(m, k); }
      }
    }
    if Paired(m) && t in m {
      assert HasForward(m, t);
    }
  }

  lemma EvictForwardKeeps(m: Table, k: Tuple)
    requires ForwardBacked(m) && k.flags == F_OUT
    ensures ForwardBacked(m - {k})
  {
    forall o | o in m - {k} && o.flags == F_OUT
      ensures HasReverse(m - {k}, o)
    {
      assert HasReverse(m, o);
    }
  }

  lemma OutgoingStores(m: Table, t: Tuple, target: NatTarget, env: Env)
    requires Outgoing(m, t, target, env).1.Ok?
    ensures var (m', r) := Outgoing(m, t, target, env); t in m' && m'[t] == r.value
  {
  }

  // ---------------------------------------------------------------- runs

  datatype Step =
    | Out(t: Tuple, target: NatTarget, env: Env)
    | In(t: Tuple, env: Env)
    | EvictForward(t: Tuple)

  /** The directions the callers put in the tuples. */
  ghost predicate WellFormed(s: Step) {
    s.t.flags == if s.In? then F_IN else F_OUT
  }

  function Apply(m: Table, s: Step): Table {
    match s
    case Out(t, target, env) => Outgoing(m, t, target, env).0
    case In(t, env) => Incoming(m, t, env).0
    case EvictForward(t) => m - {t}
  }

  function Run(m: Table, steps: seq<Step>): Table
    decreases |steps|
  {
    if steps == [] then m else Run(Apply(m, steps[0]), steps[1..])
  }

  /** No eviction, and no deletion that fails half-way. */
  predicate Undisturbed(s: Step) {
    match s
    case Out(_, _, env) => env.rollbackOk && env.deleteReverseOk
    case In(_, _) => true
    case EvictForward(_) => false
  }

  lemma StepKeepsForwardBacked(m: Table, s: Step)
    requires ForwardBacked(m) && WellFormed(s)
    ensures ForwardBacked(Apply(m, s))
  {
    hide Outgoing, Incoming, ForwardBacked;
    match s
    case Out(t, target, env) => OutgoingKeeps(m, t, target, env);
    case In(t, env) => IncomingKeeps(m, t, env);
    case EvictForward(t) => EvictForwardKeeps(m, t);
  }

  /** Safety over whole runs, with every kind of helper failure and with eviction of forward entries. */
  lemma {:induction false} RunKeepsForwardBacked(m: Table, steps: seq<Step>)
    requires ForwardBacked(m)
    requires forall i :: 0 <= i < |steps| ==> WellFormed(steps[i])
    ensures ForwardBacked(Run(m, steps))
    decreases |steps|
  {
    hide Apply, ForwardBacked;
    if steps != [] {
      assert WellFormed(steps[0]);
      StepKeepsForwardBacked(m, steps[0]);
      RunKeepsForwardBacked(Apply(m, steps[0]), steps[1..]);
    }
  }

  /** Without eviction and failing deletions the two halves stay mutually paired. */
  lemma {:induction false} RunKeepsPaired(m: Table, steps: seq<Step>)
    requires Paired(m)
    requires forall i :: 0 <= i < |steps| ==> WellFormed(steps[i]) && Undisturbed(steps[i])
    ensures Paired(Run(m, steps))
    decreases |steps|
  {
    if steps != [] {
      var s := steps[0];
      assert WellFormed(s) && Undisturbed(s);
      if s.Out? {
        OutgoingKeeps(m, s.t, s.target, s.env);
      } else {
        IncomingKeeps(m, s.t, s.env);
      }
      RunKeepsPaired(Apply(m, s), steps[1..]);
    }
  }

  /** From an empty table, no run ever lets two flows to the same peer share a translated address and port. */
  lemma {:induction false} NoPortSharing(steps: seq<Step>, a: Tuple, b: Tuple)
    requires forall i :: 0 <= i < |steps| ==> WellFormed(steps[i])
    requires var m := Run(map[], steps); a in m && b in m && a.flags == b.flags == F_OUT && a != b
    requires a.daddr == b.daddr && a.dport == b.dport && a.nexthdr == b.nexthdr
    ensures var m := Run(map[], steps); (m[a].addr, m[a].port) != (m[b].addr, m[b].port)
  {
    RunKeepsForwardBacked(map[], steps);
    var m := Run(map[], steps);
    if (m[a].addr, m[a].port) == (m[b].addr, m[b].port) {
      ReverseKeyOwner(m, a, b);
    }
  }

  /** A step leaves the pair of flow `k` alone unless it evicts `k` or retargets it. */
  ghost predicate Spares(s: Step, k: Tuple, e: NatEntry) {
    match s
    case Out(t, target, _) => t == k ==> target.addr == e.addr && target.needsCt == e.needsCt
    case In(_, _) => true
    case EvictForward(t) => t != k
  }

  lemma AllocateSpares(m: Table, o: Tuple, target: NatTarget, env: Env, k: Tuple)
    requires k in m && k != o
    ensures var m' := Allocate(m, o, target, env).0; k in m' && m'[k] == m[k]
  {
  }

  lemma StepSpares(m: Table, s: Step, k: Tuple)
    requires ForwardBacked(m) && WellFormed(s) && k in m && k.flags == F_OUT && Spares(s, k, m[k])
    ensures var m' := Apply(m, s); var rkey := ReverseKey(k, m[k]);
            k in m' && m'[k] == m[k] && rkey in m' && rkey in m && m'[rkey] == m[rkey]
  {
    assert HasReverse(m, k);
    var rkey := ReverseKey(k, m[k]);
    match s
    case Out(t, target, env) =>
      if t in m && t != k {
        assert HasReverse(m, t);
        if ReverseKey(t, m[t]) == rkey { ReverseKeyOwner(m, t, k); }
        var rest := if env.deleteReverseOk then m - {t, ReverseKey(t, m[t])} else m - {t};
        AllocateSpares(rest, t, target, env, k);
        AllocateSpares(rest, t, target, env, rkey);
      } else if t !in m {
        AllocateSpares(m, t, target, env, k);
        AllocateSpares(m, t, target, env, rkey);
      }
    case In(_, _) =>
    case EvictForward(_) =>
  }

  /** A flow keeps its translation, in both directions, through any run that neither evicts nor retargets it:
      whatever other flows allocate, recreate, fail at or lose. */
  lemma {:induction false} TranslationIsStable(m: Table, steps: seq<Step>, k: Tuple)
    requires ForwardBacked(m) && k in m && k.flags == F_OUT
    requires forall i :: 0 <= i < |steps| ==> WellFormed(steps[i]) && Spares(steps[i], k, m[k])
    ensures var m' := Run(m, steps); var rkey := ReverseKey(k, m[k]);
            k in m' && m'[k] == m[k] && rkey in m' && rkey in m && m'[rkey] == m[rkey]
    decreases |steps|
  {
    assert HasReverse(m, k);
    if steps != [] {
      assert WellFormed(steps[0]) && Spares(steps[0], k, m[k]);
      StepSpares(m, steps[0], k);
      StepKeepsForwardBacked(m, steps[0]);
      TranslationIsStable(Apply(m, steps[0]), steps[1..], k);
    }
  }

  /** Only a retargeted packet of its own flow removes a reverse entry. */
  ghost predicate SparesReplies(s: Step, k: Tuple, e: NatEntry) {
    s.Out? && s.t == k ==> s.target.addr == e.addr && s.target.needsCt == e.needsCt
  }

  /** The reverse entry of flow `k` under the translation `e`. */
  ghost predicate AnsweredBy(m: Table, k: Tuple, e: NatEntry) {
    var rkey := ReverseKey(k, e);
    rkey in m && m[rkey].addr == k.saddr && m[rkey].port == k.sport && m[rkey].needsCt == e.needsCt
  }

  lemma StepSparesReplies(m: Table, s: Step, k: Tuple, e: NatEntry)
    requires ForwardBacked(m) && WellFormed(s) && k.flags == F_OUT && AnsweredBy(m, k, e) && SparesReplies(s, k, e)
    ensures var rkey := ReverseKey(k, e); rkey in Apply(m, s) && Apply(m, s)[rkey] == m[rkey]
  {
    hide Allocate;
    var rkey := ReverseKey(k, e);
    if s.Out? {
      if s.t in m {
        assert HasReverse(m, s.t);
        var r := ReverseKey(s.t, m[s.t]);
        var rest := if s.env.deleteReverseOk then m - {s.t, r} else m - {s.t};
        if r != rkey { AllocateSpares(rest, s.t, s.target, s.env, rkey); }
      } else {
        AllocateSpares(m, s.t, s.target, s.env, rkey);
      }
    }
  }

  /** Replies keep their entry through every run that does not retarget the flow, even when the forward entry is
      evicted and the flow is translated anew. */
  lemma {:induction false} ReplyEntryIsStable(m: Table, steps: seq<Step>, k: Tuple, e: NatEntry)
    requires ForwardBacked(m) && k.flags == F_OUT && AnsweredBy(m, k, e)
    requires forall i :: 0 <= i < |steps| ==> WellFormed(steps[i]) && SparesReplies(steps[i], k, e)
    ensures var rkey := ReverseKey(k, e); rkey in Run(m, steps) && Run(m, steps)[rkey] == m[rkey]
    decreases |steps|
  {
    hide Apply, ForwardBacked;
    if steps != [] {
      assert WellFormed(steps[0]) && SparesReplies(steps[0], k, e);
      StepSparesReplies(m, steps[0], k, e);
      StepKeepsForwardBacked(m, steps[0]);
      ReplyEntryIsStable(Apply(m, steps[0]), steps[1..], k, e);
    }
  }

  // ---------------------------------------------------------------- the port range

  /** Every port in the table that stands for a translated TCP, UDP or SCTP flow is one the reverse path accepts. */
  ghost predicate PortsWithin(m: Table, lo: Port, hi: Port) {
    forall k :: k in m && k.nexthdr != IPPROTO_ICMP ==>
      && (k.flags == F_OUT ==> lo <= m[k].port <= hi)
      && (k.flags == F_IN ==> lo <= k.dport <= hi)
  }

  ghost predicate UsesRange(s: Step, lo: Port, hi: Port) {
    s.Out? && s.t.nexthdr != IPPROTO_ICMP ==> s.target.minPort == lo && s.target.maxPort == hi
  }

  lemma AllocateWithin(m: Table, o: Tuple, target: NatTarget, env: Env, lo: Port, hi: Port)
    requires lo <= hi && PortsWithin(m, lo, hi) && o.flags == F_OUT
    requires o.nexthdr != IPPROTO_ICMP ==> target.minPort == lo && target.maxPort == hi
    ensures PortsWithin(Allocate(m, o, target, env).0, lo, hi)
  {
    hide Probe;
    var free := FirstFree(m, o, target, env, 0);
    if free.Some? { ProbeInRange(target, o.sport, env, free.value); }
  }

  /** Every mapping a run ever makes or restores stays in the configured range, so the reverse path's range check
      never skips a reply. */
  lemma {:induction false} RunKeepsRange(m: Table, steps: seq<Step>, lo: Port, hi: Port)
    requires lo <= hi && PortsWithin(m, lo, hi)
    requires forall i :: 0 <= i < |steps| ==> WellFormed(steps[i]) && UsesRange(steps[i], lo, hi)
    ensures PortsWithin(Run(m, steps), lo, hi)
    decreases |steps|
  {
    hide Allocate;
    if steps != [] {
      var s := steps[0];
      assert WellFormed(s) && UsesRange(s, lo, hi);
      if s.Out? {
        AllocateWithin(m, s.t, s.target, s.env, lo, hi);
        if s.t in m {
          var rkey := ReverseKey(s.t, m[s.t]);
          AllocateWithin(if s.env.deleteReverseOk then m - {s.t, rkey} else m - {s.t}, s.t, s.target, s.env, lo, hi);
        }
      }
      RunKeepsRange(Apply(m, s), steps[1..], lo, hi);
    }
  }
}
