/** Which packets SNAT translates, which it leaves to the stack, and what a translated packet leaves with. */
module SnatParse {
  import opened Net
  import opened Checksum
  import opened PacketBuffer
  import opened RewriteLaws
  import opened PortRange
  import opened SnatTable
  import opened SnatPacket
  import opened SnatLaws
  import opened SnatRoundTrip

  // ---------------------------------------------------------------- reading headers

  /** The first word of an IPv4 header holds version, header length in 32-bit words, and the type of service; the
      fourth holds the flags and the fragment offset; the fifth the time to live and the protocol. */
  lemma HeaderFields(w: Words, l3: nat, version: nat, ihl: nat, tos: U8, df: nat, mf: nat, offset: nat,
                     ttl: U8, proto: U8)
    requires l3 + IP_WORDS <= |w| && version < 16 && ihl < 16 && df < 2 && mf < 2 && offset < 0x2000
    requires w[l3] == (16 * version + ihl) * 0x100 + tos
    requires w[l3 + 3] == 0x4000 * df + 0x2000 * mf + offset
    requires w[l3 + 4] == ttl * 0x100 + proto
    ensures HdrWords(w, l3) == 2 * ihl
    ensures IsFragment(w, l3) <==> mf == 1 || offset != 0
    ensures HasL4Header(w, l3) <==> offset == 0
    ensures Proto(w, l3) == proto
  {
  }

  // ---------------------------------------------------------------- outgoing packets

  /** What outgoing traffic SNAT is for: that of local endpoints, that of the egress gateway in the host program, and
      other traffic whose port lies where the NAT engine itself allocates ports. */
  ghost predicate Subject(cfg: Config, target: NatTarget, sport: Port) {
    || target.fromLocalEndpoint
    || (cfg.egressHost && target.egressGateway)
    || cfg.natMin <= sport
    || (cfg.natExtMax != 0 && cfg.natExtMin <= sport <= cfg.natExtMax)
  }

  /** The ports of a TCP, UDP or SCTP packet, or why they cannot be had. */
  ghost predicate PortsAre(w: Words, len: nat, l3: nat, cfg: Config, tracked: Option<(Port, Port)>,
                           r: Result<(Port, Port)>)
    requires |w| == WordCount(len) && l3 + IP_WORDS <= |w|
  {
    var l4 := l3 + HdrWords(w, l3);
    if HasL4Header(w, l3) then
      if 2 * l4 + 4 <= len then r == Ok((w[l4], w[l4 + 1])) else r == Err(InvalidHdr)
    else if !cfg.fragments then r == Err(FragNoSupport)
    else if tracked.None? then r == Err(FragNotFound)
    else r == Ok(tracked.value)
  }

  /** Outgoing packets with ports: translated iff subject to SNAT, with the flow the packet is of; otherwise left to
      the stack. */
  lemma OutgoingPorts(w: Words, len: nat, l3: nat, cfg: Config, target: NatTarget, tracked: Option<(Port, Port)>,
                      ports: Result<(Port, Port)>)
    requires |w| == WordCount(len) && InBounds(len, l3, IP_WORDS) && PortsAre(w, len, l3, cfg, tracked, ports)
    requires Proto(w, l3) in {IPPROTO_TCP, IPPROTO_UDP} || (Proto(w, l3) == IPPROTO_SCTP && cfg.sctp)
    ensures var p := ParseOut(w, len, l3, cfg, target, tracked);
            if !cfg.fragments && IsFragment(w, l3) then p == Err(FragNoSupport)
            else if ports.Err? then p == Err(ports.error)
            else if Subject(cfg, target, ports.value.0) then
              p == Ok(Flow(Tuple(AddrAt(w, l3 + IP_DADDR), AddrAt(w, l3 + IP_SADDR), ports.value.1, ports.value.0,
                                 Proto(w, l3), F_OUT), L4_SPORT))
            else p == Err(PuntToStack)
  {
    hide AddrAt;
  }

  /** Outgoing ICMP: echo requests are flows, unreachable and time exceeded messages are errors, replies and
      redirects are left to the stack, as is everything without masquerading and every other protocol. */
  lemma OutgoingOther(w: Words, len: nat, l3: nat, cfg: Config, target: NatTarget, tracked: Option<(Port, Port)>)
    requires |w| == WordCount(len) && InBounds(len, l3, IP_WORDS)
    requires Proto(w, l3) !in {IPPROTO_TCP, IPPROTO_UDP} && (Proto(w, l3) == IPPROTO_SCTP ==> !cfg.sctp)
    ensures var p := ParseOut(w, len, l3, cfg, target, tracked); var l4 := l3 + HdrWords(w, l3);
            if Proto(w, l3) != IPPROTO_ICMP || !cfg.masquerade then p == Err(PuntToStack)
            else if IsFragment(w, l3) || 2 * l4 + 8 > len then p == Err(Invalid)
            else
              var kind, code := w[l4] / 0x100, w[l4] % 0x100;
              && (kind == 8 ==>
                    p == Ok(Flow(Tuple(AddrAt(w, l3 + IP_DADDR), AddrAt(w, l3 + IP_SADDR), 0, w[l4 + 2], IPPROTO_ICMP,
                                       F_OUT), 2)))
              && (p == Ok(IcmpError) <==> (kind == 3 && code <= 15) || (kind == 11 && code <= 1))
              && (p == Err(PuntToStack) <==> kind in {0, 5})
              && (p == Err(UnknownIcmpCode) <==> (kind == 3 && code > 15) || (kind == 11 && code > 1))
              && (p == Err(UnsuppProto) <==> kind !in {0, 3, 5, 8, 11})
  {
    hide AddrAt;
  }

  // ---------------------------------------------------------------- incoming packets

  /** Incoming packets with ports: looked up iff their destination port is one SNAT hands out. */
  lemma IncomingPorts(w: Words, len: nat, l3: nat, cfg: Config, target: NatTarget, tracked: Option<(Port, Port)>,
                      ports: Result<(Port, Port)>)
    requires |w| == WordCount(len) && InBounds(len, l3, IP_WORDS) && PortsAre(w, len, l3, cfg, tracked, ports)
    requires Proto(w, l3) in {IPPROTO_TCP, IPPROTO_UDP} || (Proto(w, l3) == IPPROTO_SCTP && cfg.sctp)
    ensures var p := ParseIn(w, len, l3, cfg, target, tracked);
            if ports.Err? then p == Err(ports.error)
            else if target.minPort <= ports.value.1 <= target.maxPort then
              p == Ok(Flow(Tuple(AddrAt(w, l3 + IP_DADDR), AddrAt(w, l3 + IP_SADDR), ports.value.1, ports.value.0,
                                 Proto(w, l3), F_IN), L4_DPORT))
            else p == Err(PuntToStack)
  {
    hide AddrAt;
  }

  /** Incoming ICMP: echo replies are flows, unreachable and time exceeded messages are errors, the rest is left to
      the stack. */
  lemma IncomingOther(w: Words, len: nat, l3: nat, cfg: Config, target: NatTarget, tracked: Option<(Port, Port)>)
    requires |w| == WordCount(len) && InBounds(len, l3, IP_WORDS)
    requires Proto(w, l3) !in {IPPROTO_TCP, IPPROTO_UDP} && (Proto(w, l3) == IPPROTO_SCTP ==> !cfg.sctp)
    ensures var p := ParseIn(w, len, l3, cfg, target, tracked); var l4 := l3 + HdrWords(w, l3);
            if Proto(w, l3) != IPPROTO_ICMP || !cfg.masquerade then p == Err(PuntToStack)
            else if IsFragment(w, l3) || 2 * l4 + 8 > len then p == Err(Invalid)
            else
              var kind, code := w[l4] / 0x100, w[l4] % 0x100;
              && (kind == 0 ==>
                    p == Ok(Flow(Tuple(AddrAt(w, l3 + IP_DADDR), AddrAt(w, l3 + IP_SADDR), w[l4 + 2], 0, IPPROTO_ICMP,
                                       F_IN), 2)))
              && (p == Ok(IcmpError) <==> (kind == 3 && code <= 15) || (kind == 11 && code <= 1))
              && (p == Err(PuntToStack) <==> !(kind == 0 || (kind == 3 && code <= 15) || (kind == 11 && code <= 1)))
  {
    hide AddrAt;
  }

  /** What is not parsed as a flow or an error changes neither packet nor table. */
  lemma LeftAlone(m: Table, w: Words, len: nat, l3: nat, cfg: Config, target: NatTarget, env: Env,
                  tracked: Option<(Port, Port)>)
    requires |w| == WordCount(len)
    ensures !InBounds(len, l3, IP_WORDS) ==>
              && NatOut(m, w, len, l3, cfg, target, env, tracked) == Natted(m, w, Err(Invalid))
              && NatIn(m, w, len, l3, cfg, target, env, tracked) == Natted(m, w, Err(Invalid))
    ensures InBounds(len, l3, IP_WORDS) ==>
              var o, i := ParseOut(w, len, l3, cfg, target, tracked), ParseIn(w, len, l3, cfg, target, tracked);
              && (o.Err? ==> NatOut(m, w, len, l3, cfg, target, env, tracked) == Natted(m, w, Err(o.error)))
              && (i.Err? ==> NatIn(m, w, len, l3, cfg, target, env, tracked) == Natted(m, w, Err(i.error)))
  {
    hide ParseOut, ParseIn, ErrorOut, RewriteHeaders;
  }

  // ---------------------------------------------------------------- translation

  /** A mapping is there, or can be made: helpers work, and one of the 32 probes is free. */
  ghost predicate CanMap(m: Table, t: Tuple, target: NatTarget, env: Env) {
    && env.mapFound && (target.needsCt ==> env.ctOk)
    && if t in m && m[t].addr == target.addr && m[t].needsCt == target.needsCt
       then ReverseKey(t, m[t]) in m || env.restoreOk
       else
         && (t in m ==> env.deleteForwardOk) && env.forwardOk
         && var gone := if t in m && env.deleteReverseOk then {t, ReverseKey(t, m[t])} else {t};
         exists i :: 0 <= i < 32 && i !in env.reverseFails
                     && ReverseKey(t, NatEntry(0, false, target.addr, Probe(target, t.sport, env, i))) !in m - gone
  }

  /** When an outgoing packet gets a mapping, and what mapping: always one to the target's address. */
  lemma MappedIff(m: Table, t: Tuple, target: NatTarget, env: Env)
    requires t.flags == F_OUT
    ensures var r := Outgoing(m, t, target, env).1;
            && (r.Ok? <==> CanMap(m, t, target, env))
            && (r.Ok? ==> r.value.addr == target.addr && r.value.needsCt == target.needsCt)
            && (!env.mapFound ==> r == Err(NoSnatMap))
            && (env.mapFound && target.needsCt && !env.ctOk ==> r == Err(CtError))
  {
    hide Probe;
    var gone := if t in m && env.deleteReverseOk then {t, ReverseKey(t, m[t])} else {t};
    var rest := m - gone;
    var free := FirstFree(rest, t, target, env, 0);
    if t !in m { assert rest == m; }
    forall i | 0 <= i < 32
      ensures Free(rest, t, target, env, i) <==>
                i !in env.reverseFails
                && ReverseKey(t, NatEntry(0, false, target.addr, Probe(target, t.sport, env, i))) !in rest
    {
      assert ReverseKey(t, Candidate(t, target, env, i)) ==
             ReverseKey(t, NatEntry(0, false, target.addr, Probe(target, t.sport, env, i)));
    }
    if free.Some? {
      assert Free(rest, t, target, env, free.value);
    } else {
      assert forall i :: 0 <= i < 32 ==> !Free(rest, t, target, env, i);
    }
  }

  /** When a reply is delivered, and to whom: its entry exists, the forward half is there or can be restored, and the
      conntrack entry it may need can be made. Restoring is all that changes the table. */
  lemma DeliveredIff(m: Table, t: Tuple, env: Env)
    requires t.flags == F_IN
    ensures var (m', r) := Incoming(m, t, env);
            && (r.Ok? <==>
                  && env.mapFound && t in m && (m[t].needsCt ==> env.ctOk)
                  && (env.restoreOk || Tuple(t.saddr, m[t].addr, t.sport, m[t].port, t.nexthdr, F_OUT) in m))
            && (r.Ok? ==> r.value == m[t])
            && (!env.mapFound ==> r == Err(NoSnatMap))
            && (env.mapFound && t !in m ==> r == Err(NoMapping))
            && (m' == m || (t in m && env.restoreOk
                            && m' == m[ForwardKey(t, m[t]) := NatEntry(env.now, m[t].needsCt, t.daddr, t.dport)]))
  {
  }

  /** Every packet translated as part of a flow leaves with the target's address as its source. */
  lemma LeavesWithTarget(m: Table, w: Words, len: nat, l3: nat, cfg: Config, target: NatTarget, env: Env,
                         tracked: Option<(Port, Port)>, v: View, n: Natted)
    requires |w| == WordCount(len) && InBounds(len, l3, IP_WORDS) && HdrWords(w, l3) >= IP_WORDS && HasL4Header(w, l3)
    requires ParseOut(w, len, l3, cfg, target, tracked) == Ok(v) && v.Flow?
    requires NatOut(m, w, len, l3, cfg, target, env, tracked) == n && n.r.Ok?
    ensures var l4 := l3 + HdrWords(w, l3);
            && |n.w| == |w| && l4 + v.portOff < |w| && v.key in n.m
            && AddrAt(n.w, l3 + IP_SADDR) == target.addr
            && n.w[l4 + v.portOff] == n.m[v.key].port
            && AddrAt(n.w, l3 + IP_DADDR) == AddrAt(w, l3 + IP_DADDR)
  {
    hide AddrAt, RewriteHeaders, ParseOut, Outgoing, HdrWords, CanMap;
    ParseIsFlowOf(w, len, l3, cfg, target, tracked, true);
    FlowOfDescribes(w, len, l3, v, true, cfg.sctp);
    var t := TargetFor(target, v);
    MappedIff(m, v.key, t, env);
    OutgoingStores(m, v.key, t, env);
    FieldsAfter(w, len, l3, v, n.m[v.key], true, cfg.sctp);
  }

  /** A complete packet that is subject to SNAT is translated whenever a mapping can be had; SCTP only if the mapping
      keeps its port. */
  lemma IsTranslated(m: Table, w: Words, len: nat, l3: nat, cfg: Config, target: NatTarget, env: Env,
                     tracked: Option<(Port, Port)>)
    requires |w| == WordCount(len) && InBounds(len, l3, IP_WORDS) && HdrWords(w, l3) >= IP_WORDS
    requires HasL4Header(w, l3) && (cfg.fragments || !IsFragment(w, l3))
    requires var proto, l4 := Proto(w, l3), l3 + HdrWords(w, l3);
             && (proto in {IPPROTO_TCP, IPPROTO_UDP} || (proto == IPPROTO_SCTP && cfg.sctp))
             && InBounds(len, l4, if proto == IPPROTO_TCP then 9 else if proto == IPPROTO_UDP then 4 else 2)
    ensures var l4 := l3 + HdrWords(w, l3); var sport := w[l4];
            var key := Tuple(AddrAt(w, l3 + IP_DADDR), AddrAt(w, l3 + IP_SADDR), w[l4 + 1], sport, Proto(w, l3), F_OUT);
            var n := NatOut(m, w, len, l3, cfg, target, env, tracked);
            if Subject(cfg, target, sport) then
              CanMap(m, key, target, env) ==>
                var r := Outgoing(m, key, target, env).1;
                && r.Ok?
                && if Proto(w, l3) == IPPROTO_SCTP && r.value.port != sport then n.r == Err(CsumL4)
                   else
                     && n.r.Ok? && |n.w| == |w|
                     && AddrAt(n.w, l3 + IP_SADDR) == target.addr && n.w[l4] == r.value.port
            else n == Natted(m, w, Err(PuntToStack))
  {
    hide AddrAt, Outgoing, HdrWords, CanMap, RewriteHeaders, Subject, ParseOut;
    var l4 := l3 + HdrWords(w, l3);
    var key := Tuple(AddrAt(w, l3 + IP_DADDR), AddrAt(w, l3 + IP_SADDR), w[l4 + 1], w[l4], Proto(w, l3), F_OUT);
    OutgoingPorts(w, len, l3, cfg, target, tracked, Ok((w[l4], w[l4 + 1])));
    if Subject(cfg, target, w[l4]) && CanMap(m, key, target, env) {
      var v := Flow(key, L4_SPORT);
      MappedIff(m, key, target, env);
      var e := Outgoing(m, key, target, env).1.value;
      var c := FlowRewrite(w, l3, v, e);
      if Proto(w, l3) == IPPROTO_SCTP && e.port != w[l4] {
        SctpRefused(w, len, c, cfg.sctp);
      } else {
        RewriteSucceeds(w, len, c, cfg.sctp);
        LeavesWithTarget(m, w, len, l3, cfg, target, env, tracked, v, NatOut(m, w, len, l3, cfg, target, env, tracked));
        OutgoingStores(m, key, target, env);
      }
    }
  }

  lemma SctpRefused(w: Words, len: nat, c: Rewrite, sctp: bool)
    requires |w| == WordCount(len) && IP_CSUM < c.addrOff && InBounds(len, c.l3 + c.addrOff, 2)
    requires c.hasL4 && c.proto == IPPROTO_SCTP && sctp && c.oldPort != c.newPort
    ensures RewriteHeaders(w, len, c, sctp).r == Err(CsumL4)
  {
    hide Amend, Diff;
  }

  // ---------------------------------------------------------------- ports

  /** The ports tried, in plain arithmetic: the flow's own port if it is in range, else a random one scaled into the
      range; then another random one; and then always the successor of the last, scaled into the range again. */
  lemma ProbesAre(target: NatTarget, sport: Port, env: Env, i: nat)
    requires target.minPort <= target.maxPort
    ensures var n := target.maxPort - target.minPort + 1;
            && (target.minPort <= sport <= target.maxPort ==> Probe(target, sport, env, 0) == sport)
            && (!(target.minPort <= sport <= target.maxPort) ==>
                  Probe(target, sport, env, 0) == target.minPort + env.keepRand * n / 0x1_0000)
            && Probe(target, sport, env, 1) == target.minPort + env.retryRand * n / 0x1_0000
            && Probe(target, sport, env, i + 2) ==
               target.minPort + (Probe(target, sport, env, i + 1) + 1) % 0x1_0000 * n / 0x1_0000
  {
    hide Clamp;
    ClampInRange(target.minPort, target.maxPort, env.keepRand);
    ClampInRange(target.minPort, target.maxPort, env.retryRand);
    ClampInRange(target.minPort, target.maxPort, (Probe(target, sport, env, i + 1) + 1) % 0x1_0000);
  }

  /** A new flow gets a pair of entries stamped with the time, pointing at each other; and it keeps its own port if
      that is in range and free. */
  lemma NewPair(m: Table, o: Tuple, target: NatTarget, env: Env)
    requires o.flags == F_OUT && o !in m && Allocate(m, o, target, env).1.Ok?
    ensures var (m', r) := Allocate(m, o, target, env);
            && r.value == NatEntry(env.now, target.needsCt, target.addr, r.value.port)
            && m' == m[ReverseKey(o, r.value) := NatEntry(env.now, target.needsCt, o.saddr, o.sport)][o := r.value]
            && (target.minPort <= target.maxPort ==> target.minPort <= r.value.port <= target.maxPort)
            && (target.minPort <= o.sport <= target.maxPort && 0 !in env.reverseFails ==>
                  ReverseKey(o, r.value.(port := o.sport)) !in m ==> r.value.port == o.sport)
  {
    hide FirstFree;
    var i := FirstFree(m, o, target, env, 0).value;
    FirstFreeIs(m, o, target, env);
    ProbeInRange(target, o.sport, env, i);
    if target.minPort <= o.sport <= target.maxPort { assert Probe(target, o.sport, env, 0) == o.sport; }
    hide Probe;
    if target.minPort <= o.sport <= target.maxPort && 0 !in env.reverseFails
       && ReverseKey(o, NatEntry(env.now, target.needsCt, target.addr, o.sport)) !in m {
      assert Free(m, o, target, env, 0);
    }
  }

  lemma FirstFreeIs(m: Table, o: Tuple, target: NatTarget, env: Env)
    requires FirstFree(m, o, target, env, 0).Some?
    ensures var i := FirstFree(m, o, target, env, 0).value;
            Free(m, o, target, env, i) && (Free(m, o, target, env, 0) ==> i == 0)
  {
    hide Free;
  }

  /** The identifier of an echo request is not confined to the port range: it is kept whenever it is free. */
  lemma EchoKeepsIdentifier(m: Table, w: Words, len: nat, l3: nat, cfg: Config, target: NatTarget, env: Env,
                            tracked: Option<(Port, Port)>, v: View)
    requires |w| == WordCount(len) && InBounds(len, l3, IP_WORDS)
    requires ParseOut(w, len, l3, cfg, target, tracked) == Ok(v) && v.Flow? && v.key.nexthdr == IPPROTO_ICMP
    requires v.key !in m && 0 !in env.reverseFails
    requires ReverseKey(v.key, NatEntry(0, false, target.addr, v.key.sport)) !in m
    requires NatOut(m, w, len, l3, cfg, target, env, tracked).r.Ok?
    ensures var m' := NatOut(m, w, len, l3, cfg, target, env, tracked).m;
            v.key in m' && m'[v.key].port == v.key.sport
  {
    hide ParseOut, RewriteHeaders, Allocate, ErrorOut;
    ParseDescribes(w, len, l3, cfg, target, tracked);
    NewPair(m, v.key, TargetFor(target, v), env);
  }

  // ---------------------------------------------------------------- later fragments

  /** A later fragment has only its address translated: it leaves with the target's, and nothing behind its IP header
      changes. */
  lemma FragmentLeavesWithTarget(m: Table, w: Words, len: nat, l3: nat, cfg: Config, target: NatTarget, env: Env,
                                 tracked: Option<(Port, Port)>, v: View, n: Natted)
    requires |w| == WordCount(len) && InBounds(len, l3, IP_WORDS) && !HasL4Header(w, l3)
    requires HdrWords(w, l3) >= IP_WORDS && l3 + HdrWords(w, l3) <= |w|
    requires ParseOut(w, len, l3, cfg, target, tracked) == Ok(v) && v.Flow?
    requires NatOut(m, w, len, l3, cfg, target, env, tracked) == n && n.r.Ok?
    ensures |n.w| == |w| && AddrAt(n.w, l3 + IP_SADDR) == target.addr
    ensures forall i :: l3 + HdrWords(w, l3) <= i < |w| ==> n.w[i] == w[i]
  {
    hide AddrAt, RewriteHeaders, ParseOut, Outgoing, HdrWords, CanMap, Moved, Hi, Lo;
    ParseDescribes(w, len, l3, cfg, target, tracked);
    var t := TargetFor(target, v);
    MappedIff(m, v.key, t, env);
    var e := Outgoing(m, v.key, t, env).1.value;
    var c := FlowRewrite(w, l3, v, e);
    FlowPlaced(w, l3, v, e);
    if Unchanged(c) {
      NoRewrite(w, len, c, cfg.sctp);
    } else {
      RewriteMeaning(w, len, c, cfg.sctp);
      AddrFromParts(n.w, l3 + IP_SADDR, target.addr);
    }
  }

  // ---------------------------------------------------------------- quoted packets

  /** Which quoted packets are understood. An incoming error (`out` false) quotes a packet that went out, so its key is
      that of the reply to it; an outgoing one quotes a packet that came in. Echo requests are quoted to their sender,
      echo replies to theirs. */
  lemma QuoteIff(w: Words, len: nat, j: nat, out: bool, sctp: bool)
    requires |w| == WordCount(len)
    ensures var r := ReadQuote(w, len, j, out, sctp);
            if 2 * (j + 10) > len then r == Err(Invalid)
            else
              var l4, proto := j + HdrWords(w, j), Proto(w, j);
              var src, dst := AddrAt(w, j + 6), AddrAt(w, j + 8);
              if proto in {IPPROTO_TCP, IPPROTO_UDP} || (proto == IPPROTO_SCTP && sctp) then
                if !HasL4Header(w, j) || 2 * l4 + 4 > len then r == Err(Invalid)
                else r == Ok(Quote(proto, l4, Tuple(src, dst, w[l4], w[l4 + 1], proto, if out then F_OUT else F_IN),
                                   if out then 8 else 6, if out then 1 else 0))
              else if proto != IPPROTO_ICMP then r == Err(if out then UnknownL4 else PuntToStack)
              else if 2 * l4 + 1 > len then r == Err(Invalid)
              else
                var kind := w[l4] / 0x100;
                && (kind !in {0, 8} ==> r == Err(UnknownIcmpCode))
                && (kind == (if out then 8 else 0) ==> r == Err(PuntToStack))
                && (kind == (if out then 0 else 8) ==>
                      if 2 * l4 + 6 > len then r == Err(Invalid)
                      else
                        var id := w[l4 + 2];
                        r == Ok(Quote(proto, l4,
                                      if out then Tuple(src, dst, 0, id, proto, F_OUT)
                                      else Tuple(src, dst, id, 0, proto, F_IN),
                                      if out then 8 else 6, 2)))
  {
    hide AddrAt;
  }

  /** An error about a packet that SNAT does not know is left to the stack as it is. */
  lemma UnknownQuote(m: Table, w: Words, len: nat, l3: nat, out: bool, sctp: bool)
    requires |w| == WordCount(len) && InBounds(len, l3, IP_WORDS)
    requires var q := ReadQuote(w, len, l3 + HdrWords(w, l3) + ICMP_WORDS, out, sctp); q.Err? || q.value.key !in m
    ensures var q := ReadQuote(w, len, l3 + HdrWords(w, l3) + ICMP_WORDS, out, sctp);
            ErrorOut(m, w, len, l3, out, sctp) == Natted(m, w, Err(if q.Err? then q.error else PuntToStack))
  {
    hide ReadQuote, RewriteHeaders;
  }
}
