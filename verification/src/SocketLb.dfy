/** Load balancing at the socket: connect and sendmsg are redirected to a backend, and recvmsg and getpeername
    show the dialled address again. */
module SocketLb {
  import opened Net
  import Conntrack
  import opened LoadBalancer

  const REMOTE_NODE_ID: U32 := 6
  const KUBE_APISERVER_NODE_ID: U32 := 7
  const IPPROTO_UDPLITE: U8 := 136
  const LOOPBACK_ADDR: Addr := 0x7F00_0001

  datatype SvcFlags = SvcFlags(
    twoScopes: bool, nodePort: bool, hostPort: bool, loopback: bool, externalIp: bool, loadBalancer: bool,
    etpLocal: bool, itpLocal: bool, affinity: bool, localRedirect: bool, l7: bool, l7Delegate: bool, nat46: bool)

  /** struct lb4_key; `internal` is the scope. */
  datatype SvcKey = SvcKey(address: Addr, dport: Port, proto: U8, internal: bool, slot: U16)

  /** struct lb4_service; `payload` is the union of backend id, affinity timeout and proxy port. */
  datatype Svc = Svc(payload: U32, count: U16, revNatIndex: U16, f: SvcFlags)

  datatype Endpoint = Endpoint(identity: U32, remoteCluster: bool)

  datatype RevKey = RevKey(cookie: U64, address: Addr, port: Port)
  datatype RevVal = RevVal(address: Addr, port: Port, revNatIndex: U16)

  datatype NetnsKey = NetnsKey(cookie: U64, revNatId: U16)

  datatype Maps = Maps(
    services: map<SvcKey, Svc>, backends: map<U32, Backend>, ipcache: map<Addr, Endpoint>,
    matches: set<(U32, U16)>, skip: set<(U64, Addr, Port)>,
    affinity: map<NetnsKey, AffinityVal>, revSk: map<RevKey, RevVal>)

  datatype Options = Options(
    hostnsOnly: bool, nodePort: bool, portMin: Port, portMax: Port, noServiceRoutable: bool,
    externalIpAllowed: bool, lrp: bool, l7: bool, nat46: bool, ticksPerSecond: U32)

  /** struct bpf_sock_addr: the socket and the address it is about to use. */
  datatype Sock = Sock(cookie: U64, netns: U64, hostns: bool, proto: U8, ip: Addr, port: Port)

  /** What the kernel and the clock contribute to one call. */
  datatype Input = Input(udpOnly: bool, random: U32, now: U64, affinityOk: bool, revNatOk: bool)

  datatype Code = Done | Proceed | Enxio | Enotsup | Ehostunreach | Eperm | Enomem | Enoent

  // ---------------------------------------------------------------- finding the service

  predicate IsLoopback(a: Addr) { a / 0x100_0000 == 127 }

  predicate IsL7(svc: Svc, opt: Options) { opt.l7 && svc.f.l7 && svc.payload > 0 }

  predicate IsPunt(svc: Svc) { !svc.f.hostPort && svc.f.l7Delegate }

  /** identity_is_remote_node */
  predicate IsRemoteNode(identity: U32) {
    identity == REMOTE_NODE_ID || identity == KUBE_APISERVER_NODE_ID || identity / 0x100_0000 == 2
  }

  datatype Lookup = Lookup(key: SvcKey, svc: Option<Svc>)

  /** lb4_lookup_service for east-west traffic */
  function DirectLookup(services: map<SvcKey, Svc>, key: SvcKey): Lookup {
    var ext := key.(slot := 0, internal := false);
    if ext !in services then Lookup(ext, None)
    else if !services[ext].f.twoScopes then Lookup(ext, Some(services[ext]))
    else
      var int' := ext.(internal := true);
      Lookup(int', if int' in services then Some(services[int']) else None)
  }

  predicate InNodePortRange(port: Port, opt: Options) { opt.portMin <= port <= opt.portMax }

  /** Whether an address may use the wildcard entries of NodePort and HostPort services. */
  predicate MayWildcard(m: Maps, key: SvcKey, hostns: bool, opt: Options) {
    || (hostns && IsLoopback(key.address))
    || (key.address in m.ipcache
        && var ep := m.ipcache[key.address];
           || ep.identity == HOST_ID
           || (InNodePortRange(key.dport, opt) && IsRemoteNode(ep.identity) && !ep.remoteCluster))
  }

  /** sock4_wildcard_lookup_full */
  function WildcardLookup(m: Maps, key: SvcKey, hostns: bool, opt: Options): Lookup {
    if !opt.nodePort || !MayWildcard(m, key, hostns, opt) then Lookup(key, None)
    else
      var l := DirectLookup(m.services, key.(address := 0));
      if l.svc.None? then l
      else
        var f := l.svc.value.f;
        var fits := if InNodePortRange(key.dport, opt) then f.nodePort
                    else f.hostPort && (!f.loopback || IsLoopback(key.address));
        if fits then l else Lookup(l.key, None)
  }

  /** The service behind an address: a direct entry, else a wildcard one. */
  function FindService(m: Maps, address: Addr, port: Port, proto: U8, hostns: bool, opt: Options): Lookup {
    var l := DirectLookup(m.services, SvcKey(address, port, proto, false, 0));
    if l.svc.Some? then l else WildcardLookup(m, l.key, hostns, opt)
  }

  predicate HasBackends(svc: Svc, opt: Options) { svc.count != 0 || IsL7(svc, opt) }

  // ---------------------------------------------------------------- forward

  /** handle_nonroutable_endpoints_v4 */
  predicate DropsNonRoutable(svc: Svc) {
    var external := svc.f.externalIp || svc.f.loadBalancer || svc.f.nodePort;
    if external then svc.f.etpLocal else svc.f.itpLocal
  }

  /** sock4_skip_xlate */
  predicate SkipsXlate(m: Maps, svc: Svc, address: Addr, opt: Options) {
    || (opt.nat46 && svc.f.nat46)
    || (((svc.f.externalIp && !opt.externalIpAllowed) || (svc.f.hostPort && !IsLoopback(address)))
        && !(address in m.ipcache && m.ipcache[address].identity == HOST_ID))
  }

  /** lb4_affinity_backend_id_by_netns */
  function NetnsAffinity(m: Maps, s: Sock, svc: Svc, now: U64, opt: Options): (Maps, U32) {
    var key := NetnsKey(s.netns, svc.revNatIndex);
    if key !in m.affinity then (m, 0)
    else
      var v := m.affinity[key];
      var timeout := svc.payload % 0x100_0000 * opt.ticksPerSecond;
      if (v.lastUsed + timeout) % U64_SIZE <= Conntrack.Now32(now) || (v.backendId, svc.revNatIndex) !in m.matches then
        (m.(affinity := m.affinity - {key}), 0)
      else (m.(affinity := m.affinity[key := v.(lastUsed := Conntrack.Now32(now))]), v.backendId)
  }

  function Recorded(m: Maps, key: NetnsKey, v: AffinityVal): Maps { m.(affinity := m.affinity[key := v]) }

  datatype Choice = NoBackend(m: Maps) | Chosen(m: Maps, backend: Backend)

  /** Affinity first, then a slot: random for TCP, by socket cookie otherwise. */
  function ChooseBackend(m: Maps, s: Sock, key: SvcKey, svc: Svc, i: Input, opt: Options): Choice
    requires svc.count != 0
  {
    var (m1, sticky) := if svc.f.affinity then NetnsAffinity(m, s, svc, i.now, opt) else (m, 0);
    if sticky != 0 && sticky in m.backends then Chosen(m1, m.backends[sticky])
    else
      var slot := key.(slot := (if s.proto == IPPROTO_TCP then i.random else s.cookie) % svc.count + 1);
      if slot !in m.services || m.services[slot].payload !in m.backends then NoBackend(m1)
      else
        var id := m.services[slot].payload;
        var m2 := if svc.f.affinity && i.affinityOk
                  then Recorded(m1, NetnsKey(s.netns, svc.revNatIndex), AffinityVal(Conntrack.Now32(i.now), id))
                  else m1;
        Chosen(m2, m.backends[id])
  }

  datatype Decision = Stop(m: Maps, code: Code) | Go(m: Maps, svc: Svc, backend: Backend)

  /** __sock4_xlate_fwd up to the label `out`. */
  function Decide(m: Maps, s: Sock, i: Input, opt: Options): Decision {
    if opt.hostnsOnly && !s.hostns then Stop(m, Enxio)
    else if !i.udpOnly && !(s.proto == IPPROTO_TCP || s.proto == IPPROTO_UDP || s.proto == IPPROTO_UDPLITE)
    then Stop(m, Enotsup)
    else
      var l := FindService(m, s.ip, s.port, s.proto, s.hostns, opt);
      if l.svc.None? then Stop(m, Enxio)
      else
        var svc := l.svc.value;
        if !HasBackends(svc, opt) then
          Stop(m, if opt.noServiceRoutable || DropsNonRoutable(svc) then Ehostunreach else Done)
        else if IsPunt(svc) then Stop(m, Proceed)
        else if SkipsXlate(m, svc, s.ip, opt) then Stop(m, Eperm)
        else if opt.lrp && svc.f.localRedirect && (s.netns, s.ip, s.port) in m.skip then Stop(m, Enxio)
        else if IsL7(svc, opt) then
          if s.hostns then Go(m, svc, Backend(LOOPBACK_ADDR, svc.payload % 0x1_0000, true)) else Stop(m, Done)
        else
          match ChooseBackend(m, s, l.key, svc, i, opt)
          case NoBackend(m1) => Stop(m1, Ehostunreach)
          case Chosen(m1, backend) => Go(m1, svc, backend)
  }

  datatype Outcome = Outcome(m: Maps, s: Sock, code: Code)

  /** sock4_update_revnat; an equal entry is not written again. */
  function UpdateRevNat(m: Maps, key: RevKey, val: RevVal, ok: bool): (Maps, bool) {
    if key in m.revSk && m.revSk[key] == val then (m, true)
    else if ok then (m.(revSk := m.revSk[key := val]), true)
    else (m, false)
  }

  function KeyOf(s: Sock, backend: Backend): RevKey { RevKey(s.cookie, backend.address, backend.port) }

  /** __sock4_xlate_fwd */
  function Forward(m: Maps, s: Sock, i: Input, opt: Options): Outcome {
    match Decide(m, s, i, opt)
    case Stop(m1, code) => Outcome(m1, s, code)
    case Go(m1, svc, backend) =>
      var (m2, ok) := UpdateRevNat(m1, KeyOf(s, backend), RevVal(s.ip, s.port, svc.revNatIndex), i.revNatOk);
      if ok then Outcome(m2, s.(ip := backend.address, port := backend.port), Done) else Outcome(m2, s, Enomem)
  }

  // ---------------------------------------------------------------- reverse

  /** The service recorded in an entry is still the one behind its address, and has backends. */
  predicate Live(m: Maps, v: RevVal, proto: U8, hostns: bool, opt: Options) {
    var svc := FindService(m, v.address, v.port, proto, hostns, opt).svc;
    svc.Some? && svc.value.revNatIndex == v.revNatIndex && HasBackends(svc.value, opt)
  }

  /** __sock4_xlate_rev */
  function Reverse(m: Maps, s: Sock, opt: Options): Outcome {
    var key := RevKey(s.cookie, s.ip, s.port);
    if key !in m.revSk then Outcome(m, s, Enxio)
    else
      var v := m.revSk[key];
      if Live(m, v, s.proto, s.hostns, opt) then Outcome(m, s.(ip := v.address, port := v.port), Done)
      else Outcome(m.(revSk := m.revSk - {key}), s, Enoent)
  }

  // ---------------------------------------------------------------- in place

  /** The socket address of a hook's context. */
  class SockAddr {
    const cookie: U64
    const netns: U64
    const hostns: bool
    const proto: U8
    var ip: Addr
    var port: Port

    constructor (s: Sock)
      ensures Value() == s
    {
      cookie, netns, hostns, proto, ip, port := s.cookie, s.netns, s.hostns, s.proto, s.ip, s.port;
    }

    function Value(): Sock
      reads this
    {
      Sock(cookie, netns, hostns, proto, ip, port)
    }
  }

  /** The maps the socket programs share. */
  class SockMaps {
    var services: map<SvcKey, Svc>
    var backends: map<U32, Backend>
    var ipcache: map<Addr, Endpoint>
    var matches: set<(U32, U16)>
    var skip: set<(U64, Addr, Port)>
    var affinity: map<NetnsKey, AffinityVal>
    var revSk: map<RevKey, RevVal>

    constructor (m: Maps)
      ensures State() == m
    {
      services, backends, ipcache, matches, skip := m.services, m.backends, m.ipcache, m.matches, m.skip;
      affinity, revSk := m.affinity, m.revSk;
    }

    function State(): Maps
      reads this
    {
      Maps(services, backends, ipcache, matches, skip, affinity, revSk)
    }

    /** sock4_wildcard_lookup_full */
    method LookupWildcard(k: SvcKey, hostns: bool, opt: Options) returns (key: SvcKey, svc: Option<Svc>)
      ensures Lookup(key, svc) == WildcardLookup(State(), k, hostns, opt)
    {
      hide DirectLookup;
      key := k;
      if !opt.nodePort { return key, None; }
      var loopback := IsLoopback(key.address);
      var inRange := InNodePortRange(key.dport, opt);
      if !(hostns && loopback) {
        if key.address !in ipcache { return key, None; }
        var ep := ipcache[key.address];
        if inRange {
          if ep.identity != HOST_ID && !(IsRemoteNode(ep.identity) && !ep.remoteCluster) { return key, None; }
        } else {
          if ep.identity != HOST_ID { return key, None; }
        }
      }
      var l := DirectLookup(services, key.(address := 0));
      key, svc := l.key, l.svc;
      if svc.None? { return; }
      if inRange {
        if !svc.value.f.nodePort { svc := None; }
      } else if !(svc.value.f.hostPort && (!svc.value.f.loopback || loopback)) {
        svc := None;
      }
    }

    /** The two lookups at the start of both directions. */
    method LookupService(address: Addr, port: Port, proto: U8, hostns: bool, opt: Options)
      returns (key: SvcKey, svc: Option<Svc>)
      ensures Lookup(key, svc) == FindService(State(), address, port, proto, hostns, opt)
    {
      hide WildcardLookup, DirectLookup;
      var l := DirectLookup(services, SvcKey(address, port, proto, false, 0));
      key, svc := l.key, l.svc;
      if svc.None? {
        key, svc := LookupWildcard(key, hostns, opt);
      }
    }

    method LookupAffinity(s: Sock, svc: Svc, now: U64, opt: Options) returns (id: U32)
      modifies `affinity
      ensures (State(), id) == NetnsAffinity(old(State()), s, svc, now, opt)
    {
      var key := NetnsKey(s.netns, svc.revNatIndex);
      if key !in affinity { return 0; }
      var v := affinity[key];
      var timeout := svc.payload % 0x100_0000 * opt.ticksPerSecond;
      if (v.lastUsed + timeout) % U64_SIZE <= Conntrack.Now32(now) || (v.backendId, svc.revNatIndex) !in matches {
        affinity := affinity - {key};
        return 0;
      }
      affinity := affinity[key := v.(lastUsed := Conntrack.Now32(now))];
      id := v.backendId;
    }

    method SelectBackend(s: Sock, key: SvcKey, svc: Svc, i: Input, opt: Options) returns (backend: Option<Backend>)
      requires svc.count != 0
      modifies `affinity
      ensures var c := ChooseBackend(old(State()), s, key, svc, i, opt);
              State() == c.m && backend == if c.Chosen? then Some(c.backend) else None
    {
      hide NetnsAffinity;
      var id: U32 := 0;
      if svc.f.affinity {
        id := LookupAffinity(s, svc, i.now, opt);
        if id != 0 && id in backends { return Some(backends[id]); }
      }
      var slot := key.(slot := (if s.proto == IPPROTO_TCP then i.random else s.cookie) % svc.count + 1);
      if slot !in services { return None; }
      id := services[slot].payload;
      if id !in backends { return None; }
      if svc.f.affinity && i.affinityOk {
        affinity := affinity[NetnsKey(s.netns, svc.revNatIndex) := AffinityVal(Conntrack.Now32(i.now), id)];
      }
      backend := Some(backends[id]);
    }

    /** sock4_update_revnat */
    method StoreRevNat(key: RevKey, val: RevVal, ok: bool) returns (stored: bool)
      modifies `revSk
      ensures (State(), stored) == UpdateRevNat(old(State()), key, val, ok)
    {
      stored := true;
      if key !in revSk || revSk[key] != val {
        if !ok { return false; }
        revSk := revSk[key := val];
      }
    }

    /** __sock4_xlate_fwd before the label `out`: the service and its backend, or the code to return. */
    method FindBackend(s: Sock, i: Input, opt: Options) returns (found: Option<(Svc, Backend)>, code: Code)
      modifies `affinity
      ensures var d := Decide(old(State()), s, i, opt);
              && State() == d.m
              && match d { case Stop(_, c) => found == None && code == c case Go(_, svc, b) => found == Some((svc, b)) }
    {
      hide FindService, ChooseBackend, SkipsXlate, DropsNonRoutable, IsL7, IsPunt;
      found, code := None, Done;
      if opt.hostnsOnly && !s.hostns { return None, Enxio; }
      if !i.udpOnly && s.proto != IPPROTO_TCP && s.proto != IPPROTO_UDP
         && s.proto != IPPROTO_UDPLITE {
        return None, Enotsup;
      }
      var key, found1 := LookupService(s.ip, s.port, s.proto, s.hostns, opt);
      if found1.None? { return None, Enxio; }
      var svc := found1.value;
      if svc.count == 0 && !IsL7(svc, opt) {
        if opt.noServiceRoutable { return None, Ehostunreach; }
        if DropsNonRoutable(svc) { return None, Ehostunreach; }
        return None, Done;
      }
      if IsPunt(svc) { return None, Proceed; }
      if SkipsXlate(State(), svc, s.ip, opt) { return None, Eperm; }
      if opt.lrp && svc.f.localRedirect && (s.netns, s.ip, s.port) in skip { return None, Enxio; }
      if IsL7(svc, opt) {
        if s.hostns { found := Some((svc, Backend(LOOPBACK_ADDR, svc.payload % 0x1_0000, true))); }
        return;
      }
      var backend := SelectBackend(s, key, svc, i, opt);
      if backend.None? { return None, Ehostunreach; }
      found := Some((svc, backend.value));
    }

    /** __sock4_xlate_fwd */
    method XlateForward(ctx: SockAddr, i: Input, opt: Options) returns (code: Code)
      modifies this, ctx
      ensures Outcome(State(), ctx.Value(), code) == Forward(old(State()), old(ctx.Value()), i, opt)
    {
      hide Decide;
      var s := ctx.Value();
      var found, c := FindBackend(s, i, opt);
      if found.None? { return c; }
      var (svc, backend) := found.value;
      var ok := StoreRevNat(KeyOf(s, backend), RevVal(s.ip, s.port, svc.revNatIndex), i.revNatOk);
      if !ok { return Enomem; }
      ctx.ip := backend.address;
      ctx.port := backend.port;
      code := Done;
    }

    /** __sock4_xlate_rev */
    method XlateReverse(ctx: SockAddr, opt: Options) returns (code: Code)
      modifies `revSk, ctx
      ensures Outcome(State(), ctx.Value(), code) == Reverse(old(State()), old(ctx.Value()), opt)
    {
      hide FindService, IsL7;
      var key := RevKey(ctx.cookie, ctx.ip, ctx.port);
      if key !in revSk { return Enxio; }
      var v := revSk[key];
      var _, svc := LookupService(v.address, v.port, ctx.proto, ctx.hostns, opt);
      if svc.None? || svc.value.revNatIndex != v.revNatIndex || (svc.value.count == 0 && !IsL7(svc.value, opt)) {
        revSk := revSk - {key};
        return Enoent;
      }
      ctx.ip := v.address;
      ctx.port := v.port;
      code := Done;
    }

    /** sock4_delete_revnat */
    method DeleteRevNat(key: RevKey) returns (existed: bool)
      modifies `revSk
      ensures existed == (key in old(revSk)) && revSk == old(revSk) - {key}
    {
      existed := key in revSk;
      revSk := revSk - {key};
    }
  }
}
