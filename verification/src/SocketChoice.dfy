/** Which sockets are redirected, and to which backend. */
module SocketChoice {
  import opened Net
  import opened LoadBalancer
  import opened SocketLb

  // ---------------------------------------------------------------- the service

  /** The service entry of exactly this address: the external one, or the internal one if there are two. */
  ghost predicate Direct(services: map<SvcKey, Svc>, address: Addr, port: Port, proto: U8, key: SvcKey, svc: Svc) {
    var ext, inner := SvcKey(address, port, proto, false, 0), SvcKey(address, port, proto, true, 0);
    && ext in services && key in services && services[key] == svc
    && key == if services[ext].f.twoScopes then inner else ext
  }

  /** The address stands for a node: a loopback address in the host's namespace, an address of the host, or, for
      NodePorts only, one of another node of the cluster. */
  ghost predicate NodeAddress(m: Maps, address: Addr, port: Port, hostns: bool, opt: Options) {
    || (hostns && 0x7F00_0000 <= address < 0x8000_0000)
    || (address in m.ipcache && m.ipcache[address].identity == 1)
    || (address in m.ipcache && opt.portMin <= port <= opt.portMax && !m.ipcache[address].remoteCluster
        && (m.ipcache[address].identity in {6, 7} || 0x0200_0000 <= m.ipcache[address].identity < 0x0300_0000))
  }

  /** The wildcard entry for node addresses: of a NodePort in the NodePort range, of a HostPort outside of it, and of a
      HostPort bound to loopback only through loopback addresses. */
  ghost predicate Wildcard(m: Maps, address: Addr, port: Port, proto: U8, hostns: bool, opt: Options, key: SvcKey,
                           svc: Svc) {
    && opt.nodePort && NodeAddress(m, address, port, hostns, opt)
    && Direct(m.services, 0, port, proto, key, svc)
    && if opt.portMin <= port <= opt.portMax then svc.f.nodePort
       else svc.f.hostPort && (svc.f.loopback ==> 0x7F00_0000 <= address < 0x8000_0000)
  }

  /** A service is found iff there is a direct entry or a wildcard one; direct entries win. */
  lemma FoundIff(m: Maps, address: Addr, port: Port, proto: U8, hostns: bool, opt: Options, key: SvcKey, svc: Svc)
    ensures var l := FindService(m, address, port, proto, hostns, opt);
            l == Lookup(key, Some(svc)) <==>
              || Direct(m.services, address, port, proto, key, svc)
              || (!(exists k, s :: Direct(m.services, address, port, proto, k, s))
                  && Wildcard(m, address, port, proto, hostns, opt, key, svc))
  {
    hide WildcardLookup, Wildcard;
    DirectIff(m.services, address, port, proto, false, key, svc);
    var l := DirectLookup(m.services, SvcKey(address, port, proto, false, 0));
    if l.svc.Some? {
      DirectIff(m.services, address, port, proto, false, l.key, l.svc.value);
    } else {
      forall k, s ensures !Direct(m.services, address, port, proto, k, s) {
        DirectIff(m.services, address, port, proto, false, k, s);
      }
      WildcardIff(m, l.key, hostns, opt, key, svc);
    }
  }

  lemma DirectIff(services: map<SvcKey, Svc>, address: Addr, port: Port, proto: U8, internal: bool, key: SvcKey,
                  svc: Svc)
    ensures var l := DirectLookup(services, SvcKey(address, port, proto, internal, 0));
            && (l == Lookup(key, Some(svc)) <==> Direct(services, address, port, proto, key, svc))
            && l.key.address == address && l.key.dport == port && l.key.proto == proto && l.key.slot == 0
  {
  }

  lemma WildcardIff(m: Maps, k: SvcKey, hostns: bool, opt: Options, key: SvcKey, svc: Svc)
    requires k.slot == 0
    ensures WildcardLookup(m, k, hostns, opt) == Lookup(key, Some(svc)) <==>
              Wildcard(m, k.address, k.dport, k.proto, hostns, opt, key, svc)
  {
    hide DirectLookup, Direct;
    DirectIff(m.services, 0, k.dport, k.proto, k.internal, key, svc);
  }

  // ---------------------------------------------------------------- the backend

  /** The backend is one of the service: recorded for the network namespace and matched with the service, or listed in
      one of its slots, which are numbered from 1 to `count`. */
  ghost predicate OfService(m: Maps, s: Sock, key: SvcKey, svc: Svc, backend: Backend) {
    || (svc.f.affinity && NetnsKey(s.netns, svc.revNatIndex) in m.affinity
        && var id := m.affinity[NetnsKey(s.netns, svc.revNatIndex)].backendId;
           id in m.backends && m.backends[id] == backend && (id, svc.revNatIndex) in m.matches)
    || (exists slot: U16 :: 1 <= slot <= svc.count && key.(slot := slot) in m.services
          && m.services[key.(slot := slot)].payload in m.backends
          && m.backends[m.services[key.(slot := slot)].payload] == backend)
  }

  /** The namespace's record decides: recent, matched, and its backend exists. The timeout has 24 bits and is in
      seconds. */
  ghost predicate RecordDecides(m: Maps, s: Sock, svc: Svc, now: U64, opt: Options) {
    && svc.f.affinity && NetnsKey(s.netns, svc.revNatIndex) in m.affinity
    && var v := m.affinity[NetnsKey(s.netns, svc.revNatIndex)];
    && (v.lastUsed + svc.payload % 0x100_0000 * opt.ticksPerSecond) % U64_SIZE > now % U32_SIZE
    && (v.backendId, svc.revNatIndex) in m.matches && v.backendId != 0 && v.backendId in m.backends
  }

  /** Which backend a socket gets: that of the record if it decides; otherwise that of a slot, chosen at random for TCP
      and by the socket otherwise, and then recorded for services with affinity. */
  lemma ChosenBackend(m: Maps, s: Sock, key: SvcKey, svc: Svc, i: Input, opt: Options)
    requires svc.count != 0
    ensures var c := ChooseBackend(m, s, key, svc, i, opt); var client := NetnsKey(s.netns, svc.revNatIndex);
            var slot := key.(slot := 1 + (if s.proto == 6 then i.random else s.cookie) % svc.count);
            && (c.Chosen? ==> OfService(m, s, key, svc, c.backend))
            && (RecordDecides(m, s, svc, i.now, opt) ==>
                  && c.Chosen? && c.backend == m.backends[m.affinity[client].backendId]
                  && c.m.affinity == m.affinity[client := m.affinity[client].(lastUsed := i.now % U32_SIZE)])
            && (!RecordDecides(m, s, svc, i.now, opt) ==>
                  && (c.Chosen? <==> slot in m.services && m.services[slot].payload in m.backends)
                  && (c.Chosen? ==> c.backend == m.backends[m.services[slot].payload])
                  && (c.Chosen? && svc.f.affinity && i.affinityOk ==>
                        client in c.m.affinity
                        && c.m.affinity[client] == AffinityVal(i.now % U32_SIZE, m.services[slot].payload)))
            && (!svc.f.affinity ==> c.m == m)
  {
    SlotInRange(if s.proto == 6 then i.random else s.cookie, svc.count);
  }

  lemma SlotInRange(x: U64, count: U16)
    requires count != 0
    ensures 1 <= 1 + x % count <= count
  {
  }

  /** A record that is too old or not matched any more does not survive. */
  lemma StaleRecord(m: Maps, s: Sock, key: SvcKey, svc: Svc, i: Input, opt: Options)
    requires svc.count != 0 && svc.f.affinity && NetnsKey(s.netns, svc.revNatIndex) in m.affinity
    requires var v := m.affinity[NetnsKey(s.netns, svc.revNatIndex)];
             || (v.lastUsed + svc.payload % 0x100_0000 * opt.ticksPerSecond) % U64_SIZE <= i.now % U32_SIZE
             || (v.backendId, svc.revNatIndex) !in m.matches
    ensures var c := ChooseBackend(m, s, key, svc, i, opt); var client := NetnsKey(s.netns, svc.revNatIndex);
            if c.Chosen? && i.affinityOk
            then client in c.m.affinity && c.m.affinity[client].lastUsed == i.now % U32_SIZE
            else c.m.affinity == m.affinity - {client}
  {
  }

  // ---------------------------------------------------------------- the decision

  /** The service has somewhere to go: a backend, or a proxy for L7. */
  ghost predicate Proxied(svc: Svc, opt: Options) { opt.l7 && svc.f.l7 && svc.payload != 0 }

  /** Services that only the programs at the network devices translate: those delegated to a proxy, except HostPorts. */
  ghost predicate Delegated(svc: Svc) { svc.f.l7Delegate && !svc.f.hostPort }

  /** Addresses that are not the host's are not translated to services on external addresses, unless allowed, and not
      to HostPorts, except loopback ones; and services that NAT46 handles are not translated at all. */
  ghost predicate Foreign(m: Maps, svc: Svc, address: Addr, opt: Options) {
    || (opt.nat46 && svc.f.nat46)
    || (!(address in m.ipcache && m.ipcache[address].identity == 1)
        && ((svc.f.externalIp && !opt.externalIpAllowed)
            || (svc.f.hostPort && !(0x7F00_0000 <= address < 0x8000_0000))))
  }

  /** The socket may be translated at all: by namespace and by protocol. */
  ghost predicate Eligible(s: Sock, i: Input, opt: Options) {
    (s.hostns || !opt.hostnsOnly) && (i.udpOnly || s.proto in {6, 17, 136})
  }

  /** Nothing about the service forbids to translate the socket here. */
  ghost predicate Translatable(m: Maps, s: Sock, svc: Svc, opt: Options) {
    && (svc.count != 0 || Proxied(svc, opt)) && !Delegated(svc) && !Foreign(m, svc, s.ip, opt)
    && !(opt.lrp && svc.f.localRedirect && (s.netns, s.ip, s.port) in m.skip)
  }

  /** When a socket is redirected, and where: to the proxy on the loopback address for L7 services, in the host's
      namespace only; otherwise to the chosen backend. */
  lemma RedirectedIff(m: Maps, s: Sock, i: Input, opt: Options, l: Lookup)
    requires l == FindService(m, s.ip, s.port, s.proto, s.hostns, opt)
    ensures var d := Decide(m, s, i, opt);
            if !Eligible(s, i, opt) || l.svc.None? || !Translatable(m, s, l.svc.value, opt) then d.Stop? && d.m == m
            else if Proxied(l.svc.value, opt) then
              if s.hostns then d == Go(m, l.svc.value, Backend(0x7F00_0001, l.svc.value.payload % 0x1_0000, true))
              else d == Stop(m, Done)
            else
              var c := ChooseBackend(m, s, l.key, l.svc.value, i, opt);
              d == if c.Chosen? then Go(c.m, l.svc.value, c.backend) else Stop(c.m, Ehostunreach)
  {
    hide FindService, ChooseBackend;
  }

  /** Why a socket is not redirected. */
  lemma StoppedBecause(m: Maps, s: Sock, i: Input, opt: Options, l: Lookup)
    requires l == FindService(m, s.ip, s.port, s.proto, s.hostns, opt)
    ensures var d := Decide(m, s, i, opt);
            && (!s.hostns && opt.hostnsOnly ==> d == Stop(m, Enxio))
            && ((s.hostns || !opt.hostnsOnly) && !Eligible(s, i, opt) ==> d == Stop(m, Enotsup))
            && (Eligible(s, i, opt) && l.svc.None? ==> d == Stop(m, Enxio))
            && (Eligible(s, i, opt) && l.svc.Some? ==>
                  var svc := l.svc.value;
                  var outer := svc.f.externalIp || svc.f.loadBalancer || svc.f.nodePort;
                  var localOnly := (outer && svc.f.etpLocal) || (!outer && svc.f.itpLocal);
                  var empty := svc.count == 0 && !Proxied(svc, opt);
                  && (empty ==> d == Stop(m, if opt.noServiceRoutable || localOnly then Ehostunreach else Done))
                  && (!empty && Delegated(svc) ==> d == Stop(m, Proceed))
                  && (!empty && !Delegated(svc) && Foreign(m, svc, s.ip, opt) ==> d == Stop(m, Eperm))
                  && (!empty && !Delegated(svc) && !Foreign(m, svc, s.ip, opt) && !Translatable(m, s, svc, opt) ==>
                        d == Stop(m, Enxio)))
  {
    hide FindService, ChooseBackend;
  }

  /** The whole of a redirected call: the socket gets the backend's address, and only the affinity and the reverse
      table change. */
  lemma ForwardMeaning(m: Maps, s: Sock, i: Input, opt: Options)
    ensures var o, d := Forward(m, s, i, opt), Decide(m, s, i, opt);
            && (d.Stop? ==> o == Outcome(d.m, s, d.code))
            && (d.Go? ==>
                  var key := RevKey(s.cookie, d.backend.address, d.backend.port);
                  var v := RevVal(s.ip, s.port, d.svc.revNatIndex);
                  var same := key in d.m.revSk && d.m.revSk[key] == v;
                  && (same || i.revNatOk ==>
                        o == Outcome(d.m.(revSk := d.m.revSk[key := v]),
                                     s.(ip := d.backend.address, port := d.backend.port), Done))
                  && (!same && !i.revNatOk ==> o == Outcome(d.m, s, Enomem)))
  {
    hide Decide;
    var d := Decide(m, s, i, opt);
    if d.Go? {
      var key, v := KeyOf(s, d.backend), RevVal(s.ip, s.port, d.svc.revNatIndex);
      if key in d.m.revSk && d.m.revSk[key] == v { assert d.m.revSk[key := v] == d.m.revSk; }
    }
  }

  /** An entry is live iff its address still leads to the service it was made for, and that has somewhere to go. */
  lemma LiveIff(m: Maps, v: RevVal, proto: U8, hostns: bool, opt: Options)
    ensures var l := FindService(m, v.address, v.port, proto, hostns, opt);
            Live(m, v, proto, hostns, opt) <==>
              l.svc.Some? && l.svc.value.revNatIndex == v.revNatIndex
              && (l.svc.value.count != 0 || Proxied(l.svc.value, opt))
  {
    hide FindService;
  }
}
