/** The stateful host firewall: policy for connections, none for their replies. */
module HostFirewall {
  import opened Net
  import opened Conntrack
  import opened Replies
  import ConntrackLaws

  /** What the environment answers for one packet: identities from mark and ipcache, the verdict of the policy
      lookup (with the proxy port it selects), the clock and the outcome of the map insertions. */
  datatype Env = Env(
    srcId: U32, ipcacheSrcId: U32, dstId: U32, fromProxy: bool,
    allowed: bool, proxyPort: Port, now: U64, relatedOk: bool, mainOk: bool)

  datatype Outcome =
    | Ignored                  // not host traffic
    | Skipped(status: Status)  // accepted without policy
    | Judged(accepted: bool)   // decided by policy, or exempt from it
    | Redirected(port: Port)   // accepted by policy and sent to a proxy
    | Failed(error: Drop)

  /** need_apply_host_policy_egress */
  predicate AppliesOnEgress(env: Env) {
    env.srcId == HOST_ID && !env.fromProxy
  }

  /** Whether the firewall looks at the packet at all. */
  predicate Relevant(dir: Dir, env: Env) {
    if dir.Egress? then env.srcId == HOST_ID || env.ipcacheSrcId == HOST_ID else env.dstId == HOST_ID
  }

  /** The verdict: of policy, or acceptance for exempt egress traffic. */
  predicate Verdict(dir: Dir, env: Env) {
    (dir.Egress? && !AppliesOnEgress(env)) || env.allowed
  }

  function NewState(dir: Dir, env: Env): Info {
    var applied := !dir.Egress? || AppliesOnEgress(env);
    NO_INFO.(srcSecId := if dir.Egress? then if env.srcId == HOST_ID then HOST_ID else 0 else env.srcId,
             proxyRedirect := applied && env.proxyPort > 0)
  }

  /** ipv4_host_policy_egress and ipv4_host_policy_ingress as a function of the conntrack table. */
  function Filter(m: Table, p: Pkt, dir: Dir, env: Env, cfg: Config): (Table, Outcome) {
    if !Relevant(dir, env) then (m, Ignored)
    else
      var f := LookupPacket(m, p, dir, Bidir, env.now, cfg);
      if f.r.Err? && f.r.error != CtUnknownProto then (f.m, Failed(f.r.error))
      else if f.r.Ok? && f.r.value in {Reply, Related} then (f.m, Skipped(f.r.value))
      else if f.r == Ok(New) && Verdict(dir, env) then
        var (m', ok) := CreateEntry(f.m, true, f.tuple, dir, Some(NewState(dir, env)), p.len, env.now,
                                    env.relatedOk, env.mainOk, cfg);
        (m', if ok then Decided(dir, env, f.r) else Failed(CtCreateFailed))
      else (f.m, Decided(dir, env, f.r))
  }

  /** The end of both programs: egress redirects to the proxy that policy selected. */
  function Decided(dir: Dir, env: Env, r: Result<Status>): Outcome {
    if dir.Egress? && AppliesOnEgress(env) && env.proxyPort > 0 && r.Ok? then Redirected(env.proxyPort)
    else Judged(Verdict(dir, env))
  }

  /** The firewall hooks, sharing one conntrack map. */
  class HostFilter {
    const ct: CtMap

    constructor (ct: CtMap)
      ensures this.ct == ct
    {
      this.ct := ct;
    }

    method LookupPkt(p: Pkt, dir: Dir, now: U64, cfg: Config)
      returns (tuple: Tuple, r: Result<Status>, info: Option<Info>)
      modifies ct
      ensures Found(ct.table, tuple, r, info) == LookupPacket(old(ct.table), p, dir, Bidir, now, cfg)
    {
      hide LookupTuple;
      var key := Extract(p, TupleType(dir, Bidir), cfg);
      if key.Err? {
        return Tuple(p.daddr, p.saddr, 0, 0, p.proto, TupleType(dir, Bidir)), Err(key.error), None;
      }
      tuple, r, info := ct.LookupBoth(key.value, p, dir, Bidir, AnyType, 0, now, cfg);
    }

    /** ipv4_host_policy_egress */
    method EgressPolicy(p: Pkt, env: Env, cfg: Config) returns (o: Outcome)
      modifies ct
      ensures (ct.table, o) == Filter(old(ct.table), p, Egress, env, cfg)
    {
      hide LookupPacket, CreateEntry;
      if env.srcId != HOST_ID && env.ipcacheSrcId != HOST_ID { return Ignored; }
      var tuple, ret, _ := LookupPkt(p, Egress, env.now, cfg);
      if ret.Err? && ret.error != CtUnknownProto { return Failed(ret.error); }
      if ret == Ok(Reply) || ret == Ok(Related) { return Skipped(ret.value); }
      var verdict := true;
      var state := NO_INFO.(srcSecId := if env.srcId == HOST_ID then HOST_ID else 0);
      if AppliesOnEgress(env) {
        verdict := env.allowed;
        state := state.(proxyRedirect := env.proxyPort > 0);
      }
      if ret == Ok(New) && verdict {
        var ok := ct.Create4(true, tuple, Egress, Some(state), p.len, env.now, env.relatedOk, env.mainOk, cfg);
        if !ok { return Failed(CtCreateFailed); }
      }
      if AppliesOnEgress(env) && env.proxyPort > 0 && ret.Ok? { return Redirected(env.proxyPort); }
      o := Judged(verdict);
    }

    /** ipv4_host_policy_ingress */
    method IngressPolicy(p: Pkt, env: Env, cfg: Config) returns (o: Outcome)
      modifies ct
      ensures (ct.table, o) == Filter(old(ct.table), p, Ingress, env, cfg)
    {
      hide LookupPacket, CreateEntry;
      if env.dstId != HOST_ID { return Ignored; }
      var tuple, ret, _ := LookupPkt(p, Ingress, env.now, cfg);
      if ret.Err? && ret.error != CtUnknownProto { return Failed(ret.error); }
      if ret == Ok(Reply) || ret == Ok(Related) { return Skipped(ret.value); }
      if ret == Ok(New) && env.allowed {
        var state := NO_INFO.(srcSecId := env.srcId, proxyRedirect := env.proxyPort > 0);
        var ok := ct.Create4(true, tuple, Ingress, Some(state), p.len, env.now, env.relatedOk, env.mainOk, cfg);
        if !ok { return Failed(CtCreateFailed); }
      }
      o := Judged(env.allowed);
    }
  }

  // ---------------------------------------------------------------- traces

  datatype Event =
    | Packet(p: Pkt, dir: Dir, env: Env)
    | Evict(key: Tuple)

  ghost predicate WellFormed(trace: seq<Event>) {
    forall i :: 0 <= i < |trace| && trace[i].Packet? ==> !trace[i].dir.Service?
  }

  function After(m: Table, ev: Event, cfg: Config): Table {
    match ev
    case Packet(p, dir, env) => Filter(m, p, dir, env, cfg).0
    case Evict(key) => m - {key}
  }

  /** The conntrack table after a trace; only the firewall writes it, starting from nothing. */
  function TableAfter(trace: seq<Event>, cfg: Config): Table
    decreases |trace|
  {
    if trace == [] then map[] else After(TableAfter(trace[..|trace| - 1], cfg), trace[|trace| - 1], cfg)
  }

  /** Traffic of the host itself: to its addresses, or from them by mark or by address. */
  ghost predicate OnHost(dir: Dir, env: Env) {
    if dir.Egress? then env.srcId == HOST_ID || env.ipcacheSrcId == HOST_ID else env.dstId == HOST_ID
  }

  /** Egress that policy does not apply to: not marked as the host's own, or coming from its proxy. */
  ghost predicate Exempt(dir: Dir, env: Env) {
    dir.Egress? && (env.srcId != HOST_ID || env.fromProxy)
  }

  /** Packet `i` of the trace started a connection: it was new, and policy accepted it or it was exempt. */
  ghost predicate Opened(trace: seq<Event>, i: int, cfg: Config) {
    && 0 <= i < |trace| && trace[i].Packet? && !trace[i].dir.Service?
    && var Packet(p, dir, env) := trace[i];
    && OnHost(dir, env) && (env.allowed || Exempt(dir, env))
    && LookupPacket(TableAfter(trace[..i], cfg), p, dir, Bidir, env.now, cfg).r == Ok(New)
  }

  /** The key of the connection packet `i` started. */
  ghost function OpenKey(trace: seq<Event>, i: int, cfg: Config): Tuple
    requires Opened(trace, i, cfg)
  {
    var Packet(p, dir, env) := trace[i];
    LookupPacket(TableAfter(trace[..i], cfg), p, dir, Bidir, env.now, cfg).tuple
  }

  ghost predicate Founded(trace: seq<Event>, i: int, key: Tuple, cfg: Config) {
    Opened(trace, i, cfg) && (key == OpenKey(trace, i, cfg) || key == RelatedKey(OpenKey(trace, i, cfg)))
  }

  lemma LookupKeys(m: Table, p: Pkt, dir: Dir, now: U64, cfg: Config)
    ensures LookupPacket(m, p, dir, Bidir, now, cfg).m.Keys == m.Keys
  {
    hide Touch;
  }

  lemma FoundedExtends(trace: seq<Event>, ev: Event, i: int, key: Tuple, cfg: Config)
    requires Founded(trace, i, key, cfg)
    ensures Founded(trace + [ev], i, key, cfg)
  {
    hide LookupPacket;
    assert (trace + [ev])[..i] == trace[..i];
  }

  /** Every entry of the table was put there by a packet that policy accepted or that was exempt. */
  lemma {:induction false} EveryEntryFounded(trace: seq<Event>, key: Tuple, cfg: Config)
    requires WellFormed(trace) && key in TableAfter(trace, cfg)
    ensures exists i :: 0 <= i < |trace| && Founded(trace, i, key, cfg)
    decreases |trace|
  {
    hide LookupPacket, Founded;
    var n := |trace| - 1;
    var before, ev := trace[..n], trace[n];
    var m := TableAfter(before, cfg);
    assert before + [ev] == trace;
    if key in m {
      EveryEntryFounded(before, key, cfg);
      var i :| 0 <= i < n && Founded(before, i, key, cfg);
      FoundedExtends(before, ev, i, key, cfg);
    } else {
      EntryAdded(trace, key, cfg);
      assert Founded(trace, n, key, cfg);
    }
  }

  lemma EntryAdded(trace: seq<Event>, key: Tuple, cfg: Config)
    requires WellFormed(trace) && trace != [] && key in TableAfter(trace, cfg)
    requires key !in TableAfter(trace[..|trace| - 1], cfg)
    ensures Founded(trace, |trace| - 1, key, cfg)
  {
    hide LookupPacket, FreshEntry;
    var n := |trace| - 1;
    var ev := trace[n];
    if ev.Packet? {
      LookupKeys(TableAfter(trace[..n], cfg), ev.p, ev.dir, ev.env.now, cfg);
    }
  }

  lemma ReplyHit(m: Table, p: Pkt, dir: Dir, now: U64, cfg: Config)
    requires !dir.Service?
    ensures var f := LookupPacket(m, p, dir, Bidir, now, cfg);
            f.r == Ok(Reply) || f.r == Ok(Related) ==>
              var t := ReplyKey(p, dir, cfg);
              t.Ok? && t.value in m && (f.r == Ok(Related) <==> t.value.flags.related)
  {
    hide Touch;
  }

  lemma KeyFlags(p: Pkt, dir: Dir, cfg: Config)
    requires !dir.Service? && ReplyKey(p, dir, cfg).Ok?
    ensures var t := ReplyKey(p, dir, cfg).value;
            && t.daddr == p.daddr && t.saddr == p.saddr && t.nexthdr == p.proto
            && t.flags.inward == dir.Egress? && !t.flags.service
            && (t.flags.related <==> p.proto == IPPROTO_ICMP && p.icmp.Some? && p.icmp.value.0 in {3, 11, 12})
            && (PortProto(p.proto, cfg.sctp) ==>
                p.ports.Ok? && t.dport == p.ports.value.0 && t.sport == p.ports.value.1)
  {
  }

  /** Packet `i` was an accepted or exempt packet of the opposite direction between the same two addresses. */
  ghost predicate EarlierPeer(trace: seq<Event>, i: int, p: Pkt, dir: Dir, cfg: Config)
    requires !dir.Service?
  {
    && Opened(trace, i, cfg) && trace[i].dir == Replies.Opposite(dir)
    && trace[i].p.saddr == p.daddr && trace[i].p.daddr == p.saddr
  }

  /** Soundness of skipping policy, over whole traces. A packet accepted as a reply is the exact reverse, in
      the sense of conntrack's five-tuple, of an earlier packet of the opposite direction that policy accepted
      or that was exempt; for TCP, UDP and SCTP that means its ports exchanged. A packet accepted as related has
      an earlier such packet between the same two addresses. */
  lemma SkippedIsFounded(trace: seq<Event>, p: Pkt, dir: Dir, env: Env, cfg: Config)
    requires WellFormed(trace) && !dir.Service?
    requires Filter(TableAfter(trace, cfg), p, dir, env, cfg).1.Skipped?
    ensures var status := Filter(TableAfter(trace, cfg), p, dir, env, cfg).1.status;
            && (status == Reply || status == Related)
            && (status == Related ==> p.proto == IPPROTO_ICMP && p.icmp.Some? && p.icmp.value.0 in {3, 11, 12})
            && exists i :: 0 <= i < |trace| && EarlierPeer(trace, i, p, dir, cfg)
                 && (status == Reply ==>
                       && ReplyKey(p, dir, cfg) == Ok(OpenKey(trace, i, cfg))
                       && trace[i].p.proto == p.proto
                       && (PortProto(p.proto, cfg.sctp) ==>
                             && trace[i].p.ports.Ok?
                             && p.ports == Ok((trace[i].p.ports.value.1, trace[i].p.ports.value.0))))
  {
    hide LookupPacket, Extract, Opened;
    var m := TableAfter(trace, cfg);
    ReplyHit(m, p, dir, env.now, cfg);
    var t := ReplyKey(p, dir, cfg).value;
    EveryEntryFounded(trace, t, cfg);
    var i :| 0 <= i < |trace| && Founded(trace, i, t, cfg);
    OpenKeyShape(trace, i, cfg);
    KeyFlags(p, dir, cfg);
    assert EarlierPeer(trace, i, p, dir, cfg);
  }

  lemma OpenKeyShape(trace: seq<Event>, i: int, cfg: Config)
    requires Opened(trace, i, cfg)
    ensures 0 <= i < |trace| && trace[i].Packet? && !trace[i].dir.Service?
    ensures var k := OpenKey(trace, i, cfg);
            && k.daddr == trace[i].p.saddr && k.saddr == trace[i].p.daddr && k.nexthdr == trace[i].p.proto
            && k.flags.inward == trace[i].dir.Ingress? && !k.flags.service
            && (PortProto(k.nexthdr, cfg.sctp) ==>
                  trace[i].p.ports.Ok? && k.sport == trace[i].p.ports.value.0 && k.dport == trace[i].p.ports.value.1)
  {
    hide LookupPacket, Extract;
    var Packet(p, dir, env) := trace[i];
    NewTuple(TableAfter(trace[..i], cfg), p, dir, env.now, cfg);
    KeyFlags(p, dir, cfg);
  }

  // ---------------------------------------------------------------- what passes

  /** The packet goes on. */
  ghost predicate Passes(o: Outcome) {
    o.Ignored? || o.Skipped? || o == Judged(true) || o.Redirected?
  }

  /** What happens to one packet, for any table. Only host traffic is looked at. A failed lookup fails, except for
      protocols conntrack does not know. Otherwise the packet passes iff it is a reply or related, or exempt, or policy
      allows it, and the last two only if the entry of a new connection could be stored. A refused packet changes no
      more than its lookup does. Policy selects a proxy only for what it allows. */
  lemma PassesIff(m: Table, p: Pkt, dir: Dir, env: Env, cfg: Config)
    requires !dir.Service? && (env.allowed || env.proxyPort == 0)
    ensures var f := LookupPacket(m, p, dir, Bidir, env.now, cfg); var (m', o) := Filter(m, p, dir, env, cfg);
            && (o.Ignored? <==> !OnHost(dir, env))
            && (o.Ignored? ==> m' == m)
            && (OnHost(dir, env) && f.r.Err? && f.r.error != CtUnknownProto ==> o == Failed(f.r.error) && m' == f.m)
            && (OnHost(dir, env) && (f.r == Ok(Reply) || f.r == Ok(Related)) ==> o == Skipped(f.r.value) && m' == f.m)
            && (OnHost(dir, env) && (f.r in {Ok(New), Ok(Established), Err(CtUnknownProto)}) ==>
                  && (Passes(o) <==>
                        (env.allowed || Exempt(dir, env)) && (f.r == Ok(New) ==> env.relatedOk && env.mainOk))
                  && (o == Failed(CtCreateFailed) <==>
                        (env.allowed || Exempt(dir, env)) && f.r == Ok(New) && !(env.relatedOk && env.mainOk))
                  && (o.Redirected? ==> o.port == env.proxyPort)
                  && (Passes(o) ==>
                        (o.Redirected? <==> dir.Egress? && !Exempt(dir, env) && env.proxyPort > 0 && f.r.Ok?))
                  && (!(env.allowed || Exempt(dir, env)) ==> o == Judged(false) && m' == f.m))
  {
    hide LookupPacket, FreshEntry;
  }

  /** What a new connection is recorded with: who opened it, and whether its replies go to a proxy. */
  lemma RecordedAs(m: Table, p: Pkt, dir: Dir, env: Env, cfg: Config)
    requires !dir.Service? && OnHost(dir, env) && (env.allowed || Exempt(dir, env)) && env.relatedOk && env.mainOk
    requires LookupPacket(m, p, dir, Bidir, env.now, cfg).r == Ok(New)
    ensures var key := LookupPacket(m, p, dir, Bidir, env.now, cfg).tuple; var m' := Filter(m, p, dir, env, cfg).0;
            && key in m' && RelatedKey(key) in m'
            && m'[key].info == NO_INFO.(srcSecId := if dir.Ingress? || env.srcId == HOST_ID then env.srcId else 0,
                                        proxyRedirect := !Exempt(dir, env) && env.proxyPort > 0)
            && m'[RelatedKey(key)].info == m'[key].info
  {
    hide LookupPacket, FreshEntry;
    var key := LookupPacket(m, p, dir, Bidir, env.now, cfg).tuple;
    ConntrackLaws.FreshInfo(key.nexthdr == IPPROTO_TCP, dir, NewState(dir, env), env.now, cfg);
  }

  // ---------------------------------------------------------------- completeness over traces

  lemma {:induction false} TraceKeeps(trace: seq<Event>, n: nat, key: Tuple, cfg: Config)
    requires n <= |trace| && key in TableAfter(trace[..n], cfg)
    requires forall j :: n <= j < |trace| ==> trace[j] != Evict(key)
    ensures key in TableAfter(trace, cfg)
    decreases |trace| - n
  {
    hide Filter;
    if n == |trace| {
      assert trace[..n] == trace;
    } else {
      var ev, next := trace[n], trace[..n + 1];
      assert next[..n] == trace[..n] && next[n] == ev;
      if ev.Packet? { FilterKeeps(TableAfter(trace[..n], cfg), ev.p, ev.dir, ev.env, cfg, key); }
      TraceKeeps(trace, n + 1, key, cfg);
    }
  }

  lemma FilterKeeps(m: Table, p: Pkt, dir: Dir, env: Env, cfg: Config, key: Tuple)
    requires key in m
    ensures key in Filter(m, p, dir, env, cfg).0
  {
    hide LookupPacket, FreshEntry;
    LookupKeys(m, p, dir, env.now, cfg);
  }

  /** Completeness over whole traces: after a packet opened a connection, and until its entry is evicted, every packet
      of the opposite direction that answers it passes, whatever policy says, unless it is a bare SYN on a closing
      connection. */
  lemma AnswersPass(trace: seq<Event>, i: nat, p: Pkt, env: Env, cfg: Config)
    requires Opened(trace, i, cfg) && trace[i].env.relatedOk && trace[i].env.mainOk
    requires forall j :: i < j < |trace| ==> trace[j] != Evict(OpenKey(trace, i, cfg))
    requires var dir := Replies.Opposite(trace[i].dir);
             Replies.Answers(p, trace[i].p, cfg) && PacketFlags(p).Ok? && OnHost(dir, env)
    ensures var dir := Replies.Opposite(trace[i].dir); var key := OpenKey(trace, i, cfg);
            && key in TableAfter(trace, cfg)
            && (!Restarts(p, TableAfter(trace, cfg)[key]) ==>
                  Filter(TableAfter(trace, cfg), p, dir, env, cfg).1 == Skipped(Reply))
  {
    hide LookupPacket, FreshEntry, Replies.Answers;
    var key, dir := OpenKey(trace, i, cfg), Replies.Opposite(trace[i].dir);
    var next := trace[..i + 1];
    assert next[..i] == trace[..i] && next[i] == trace[i];
    RecordedAs(TableAfter(trace[..i], cfg), trace[i].p, trace[i].dir, trace[i].env, cfg);
    TraceKeeps(trace, i + 1, key, cfg);
    NewTuple(TableAfter(trace[..i], cfg), trace[i].p, trace[i].dir, trace[i].env.now, cfg);
    AnswerKey(trace[i].p, p, trace[i].dir, cfg);
    ReplyIff(TableAfter(trace, cfg), p, dir, env.now, cfg);
  }
}
