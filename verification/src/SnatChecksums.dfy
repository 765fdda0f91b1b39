/** Every packet SNAT translates leaves with correct checksums, and exactly which echo replies do not. */
module SnatChecksums {
  import opened Net
  import opened Checksum
  import opened PacketBuffer
  import opened RewriteLaws
  import opened SnatTable
  import opened SnatPacket
  import opened SnatLaws

  // ---------------------------------------------------------------- flows

  /** An echo whose identifier stays keeps its ICMP message as it is. */
  lemma EchoUnmoved(w: Words, w': Words, c: Rewrite, end: nat, l4Len: nat)
    requires WellPlaced(w, c) && Rewritten(w, w', c, true)
    requires c.proto == Proto(w, c.l3) == IPPROTO_ICMP && c.oldPort == c.newPort && c.innerDiff == 0
    requires c.l4 <= end <= |w|
    ensures L4Valid(w', c.l3, c.l4, end, l4Len) == L4Valid(w, c.l3, c.l4, end, l4Len)
  {
    hide Cong, Moved, Hi, Lo, AddrAt, ValidSum;
    PseudoMoves(w, w', c, l4Len);
    SumAgree(w, w', c.l4, end);
  }

  /** Some word of the ICMP message other than checksum and identifier is not zero. */
  ghost predicate OtherContent(w: Words, l4: nat, end: nat)
    requires end <= |w|
  {
    exists i :: l4 <= i < end && i != l4 + ICMP_CSUM && i != l4 + ICMP_ID && w[i] != 0
  }

  /** A rewritten echo: its checksum is correct iff it kept its identifier or its message is not all zero. */
  lemma EchoChecksum(w: Words, w': Words, c: Rewrite, end: nat, l4Len: nat)
    requires WellPlaced(w, c) && Rewritten(w, w', c, true) && c.hasL4 && c.innerDiff == 0
    requires c.proto == Proto(w, c.l3) == IPPROTO_ICMP
    requires c.l4 + ICMP_ID < end <= |w| && L4Valid(w, c.l3, c.l4, end, l4Len)
    ensures L4Valid(w', c.l3, c.l4, end, l4Len) <==>
              c.newPort == c.oldPort || c.newPort != 0 || OtherContent(w, c.l4, end)
  {
    hide Cong, Moved, Hi, Lo, AddrAt, L4Valid;
    if c.oldPort == c.newPort {
      EchoUnmoved(w, w', c, end, l4Len);
    } else {
      EchoValidIffNonZero(w, w', c, end, l4Len);
      assert w'[c.l4 + ICMP_ID] == c.newPort;
      assert forall i :: c.l4 <= i < end && i != c.l4 + ICMP_CSUM && i != c.l4 + ICMP_ID ==> w'[i] == w[i];
    }
  }

  /** A correct echo, with its identifier replaced by that of a mapping. */
  lemma EchoFlow(w: Words, len: nat, l3: nat, v: View, e: NatEntry, sctp: bool, end: nat, l4Len: nat)
    requires |w| == WordCount(len) && Describes(w, l3, v) && IpValid(w, l3) && HasL4Header(w, l3)
    requires v.key.nexthdr == IPPROTO_ICMP && RewriteHeaders(w, len, FlowRewrite(w, l3, v, e), sctp).r.Ok?
    requires var l4 := l3 + HdrWords(w, l3); l4 + ICMP_ID < end <= |w| && L4Valid(w, l3, l4, end, l4Len)
    ensures var w' := RewriteHeaders(w, len, FlowRewrite(w, l3, v, e), sctp).w; var l4 := l3 + HdrWords(w, l3);
            var own := if v.key.flags == F_OUT then v.key.sport else v.key.dport;
            && |w'| == |w|
            && (L4Valid(w', l3, l4, end, l4Len) <==> e.port == own || e.port != 0 || OtherContent(w, l4, end))
  {
    hide AddrAt, RewriteHeaders, Rewritten, IpValid, L4Valid, OtherContent;
    var c := FlowRewrite(w, l3, v, e);
    FlowHeader(w, l3);
    if Unchanged(c) {
      NoRewrite(w, len, c, sctp);
    } else {
      FlowPlaced(w, l3, v, e);
      RewriteMeaning(w, len, c, sctp);
      RewriteKeepsLength(w, len, c, sctp);
      EchoChecksum(w, RewriteHeaders(w, len, c, sctp).w, c, end, l4Len);
    }
  }

  /** SCTP: nothing behind the IP header changes, so its CRC stays correct. */
  lemma SctpFlow(w: Words, len: nat, l3: nat, v: View, e: NatEntry, sctp: bool)
    requires |w| == WordCount(len) && Describes(w, l3, v) && IpValid(w, l3)
    requires v.key.nexthdr == IPPROTO_SCTP && RewriteHeaders(w, len, FlowRewrite(w, l3, v, e), sctp).r.Ok?
    ensures var w' := RewriteHeaders(w, len, FlowRewrite(w, l3, v, e), sctp).w;
            && |w'| == |w| && l3 + IP_WORDS <= |w| && Proto(w', l3) == IPPROTO_SCTP
            && forall i :: l3 + HdrWords(w, l3) <= i < |w| ==> w'[i] == w[i]
  {
    hide AddrAt, RewriteHeaders, IpValid, Moved, Hi, Lo;
    var c := FlowRewrite(w, l3, v, e);
    FlowHeader(w, l3);
    if Unchanged(c) {
      NoRewrite(w, len, c, sctp);
    } else {
      FlowPlaced(w, l3, v, e);
      RewriteMeaning(w, len, c, sctp);
      if c.hasL4 { SctpPort(w, len, c, sctp); }
    }
  }

  /** What the checksums of a translated flow packet are: of the four protocols, only an echo reply can fail. */
  ghost predicate KeepsChecksums(w: Words, w': Words, l3: nat, out: bool, e: NatEntry, own: Port, end: nat, l4Len: nat)
    requires l3 < |w| && l3 + IP_WORDS <= l3 + HdrWords(w, l3) <= end <= |w|
  {
    var proto, l4 := Proto(w, l3), l3 + HdrWords(w, l3);
    && |w'| == |w| && IpValid(w', l3)
    && (HasL4Header(w, l3) && L4Valid(w, l3, l4, end, l4Len) ==>
          if proto == IPPROTO_ICMP && !out
          then L4Valid(w', l3, l4, end, l4Len) <==> e.port == own || e.port != 0 || OtherContent(w, l4, end)
          else L4Valid(w', l3, l4, end, l4Len))
    && (proto == IPPROTO_SCTP ==> forall i :: l4 <= i < |w| ==> w'[i] == w[i])
  }

  lemma FlowKeepsChecksums(w: Words, len: nat, l3: nat, v: View, e: NatEntry, sctp: bool, end: nat, l4Len: nat)
    requires |w| == WordCount(len) && Describes(w, l3, v) && IpValid(w, l3)
    requires RewriteHeaders(w, len, FlowRewrite(w, l3, v, e), sctp).r.Ok?
    requires var l4 := l3 + HdrWords(w, l3);
             && IP_WORDS <= HdrWords(w, l3) && l4 <= end <= |w|
             && (v.key.nexthdr == IPPROTO_ICMP ==>
                   && l4 + ICMP_ID < end && HasL4Header(w, l3)
                   && (v.key.flags == F_OUT ==> w[l4] / 0x100 == ICMP_ECHO))
             && v.key.nexthdr in {IPPROTO_TCP, IPPROTO_UDP, IPPROTO_ICMP, IPPROTO_SCTP}
    ensures var own := if v.key.flags == F_OUT then v.key.sport else v.key.dport;
            KeepsChecksums(w, RewriteHeaders(w, len, FlowRewrite(w, l3, v, e), sctp).w, l3, v.key.flags == F_OUT, e,
                           own, end, l4Len)
  {
    hide AddrAt, RewriteHeaders, IpValid, L4Valid;
    var l4 := l3 + HdrWords(w, l3);
    FlowStaysValid(w, len, l3, v, e, sctp, end, l4Len);
    if v.key.nexthdr == IPPROTO_SCTP {
      SctpFlow(w, len, l3, v, e, sctp);
      SctpValid(RewriteHeaders(w, len, FlowRewrite(w, l3, v, e), sctp).w, l3, l4, end, l4Len);
    } else if v.key.nexthdr == IPPROTO_ICMP && L4Valid(w, l3, l4, end, l4Len) {
      EchoFlow(w, len, l3, v, e, sctp, end, l4Len);
      if v.key.flags == F_OUT { assert w[l4] != 0; }
    }
  }

  /** What parsing a flow tells about its protocol. */
  lemma ParsedFlow(w: Words, len: nat, l3: nat, cfg: Config, target: NatTarget, tracked: Option<(Port, Port)>,
                   out: bool)
    requires |w| == WordCount(len) && InBounds(len, l3, IP_WORDS)
    ensures var p := if out then ParseOut(w, len, l3, cfg, target, tracked)
                     else ParseIn(w, len, l3, cfg, target, tracked);
            var l4 := l3 + HdrWords(w, l3);
            p.Ok? && p.value.Flow? ==>
              && p.value.key.nexthdr in {IPPROTO_TCP, IPPROTO_UDP, IPPROTO_ICMP, IPPROTO_SCTP}
              && (p.value.key.nexthdr == IPPROTO_ICMP ==>
                    HasL4Header(w, l3) && l4 < |w| && (out ==> w[l4] / 0x100 == ICMP_ECHO))
  {
    hide AddrAt, LoadPorts;
    if !IsFragment(w, l3) { assert HasL4Header(w, l3); }
  }

  /** snat_v4_nat and snat_v4_rev_nat, for every packet they translate as part of a flow: IPv4 checksums stay
      correct for all protocols, TCP and UDP checksums too, those of echo requests too, and SCTP is not touched.
      Those of echo replies stay correct iff the mapping keeps the identifier or the message is not all zero. */
  lemma NatKeepsChecksums(m: Table, w: Words, len: nat, l3: nat, cfg: Config, target: NatTarget, env: Env,
                          tracked: Option<(Port, Port)>, out: bool, end: nat, l4Len: nat)
    requires |w| == WordCount(len) && InBounds(len, l3, IP_WORDS) && IpValid(w, l3)
    requires l3 + HdrWords(w, l3) <= end <= |w|
    requires Proto(w, l3) == IPPROTO_ICMP ==> l3 + HdrWords(w, l3) + ICMP_ID < end
    ensures var p := if out then ParseOut(w, len, l3, cfg, target, tracked)
                     else ParseIn(w, len, l3, cfg, target, tracked);
            var n := if out then NatOut(m, w, len, l3, cfg, target, env, tracked)
                     else NatIn(m, w, len, l3, cfg, target, env, tracked);
            n.r.Ok? ==>
              && p.Ok?
              && (p.value.Flow? ==>
                    var key, table := p.value.key, if out then n.m else m;
                    && key in table
                    && KeepsChecksums(w, n.w, l3, out, table[key], if out then key.sport else key.dport, end, l4Len))
  {
    hide AddrAt, RewriteHeaders, IpValid, L4Valid, Outgoing, Incoming, ErrorOut, ParseOut, ParseIn, KeepsChecksums;
    ParseDescribes(w, len, l3, cfg, target, tracked);
    ParsedFlow(w, len, l3, cfg, target, tracked, out);
    FlowHeader(w, l3);
    var p := if out then ParseOut(w, len, l3, cfg, target, tracked) else ParseIn(w, len, l3, cfg, target, tracked);
    if p.Ok? && p.value.Flow? {
      var v := p.value;
      var state := if out then Outgoing(m, v.key, TargetFor(target, v), env).1 else Incoming(m, v.key, env).1;
      if state.Ok? && RewriteHeaders(w, len, FlowRewrite(w, l3, v, state.value), cfg.sctp).r.Ok? {
        FlowKeepsChecksums(w, len, l3, v, state.value, cfg.sctp, end, l4Len);
        if out { OutgoingStores(m, v.key, TargetFor(target, v), env); } else { IncomingReads(m, v.key, env); }
      }
    }
  }

  lemma IncomingReads(m: Table, t: Tuple, env: Env)
    requires Incoming(m, t, env).1.Ok?
    ensures t in m && Incoming(m, t, env).1 == Ok(m[t])
  {
  }

  // ---------------------------------------------------------------- ICMP errors

  /** And for every ICMP error they translate: the outer IPv4 checksum and the outer ICMP checksum, which covers
      the rewritten quote, stay correct. */
  lemma NatErrorKeepsChecksums(m: Table, w: Words, len: nat, l3: nat, cfg: Config, target: NatTarget, env: Env,
                               tracked: Option<(Port, Port)>, out: bool)
    requires |w| == WordCount(len) && InBounds(len, l3, IP_WORDS) && IpValid(w, l3)
    requires var l4 := l3 + HdrWords(w, l3); var j := l4 + ICMP_WORDS;
             j < |w| && HdrWords(w, j) >= IP_WORDS && ValidSum(Sum(w, l4, |w|))
    requires (if out then ParseOut(w, len, l3, cfg, target, tracked) else ParseIn(w, len, l3, cfg, target, tracked))
             == Ok(IcmpError)
    ensures var n := if out then NatOut(m, w, len, l3, cfg, target, env, tracked)
                     else NatIn(m, w, len, l3, cfg, target, env, tracked);
            var l4 := l3 + HdrWords(w, l3);
            n.r.Ok? ==> |n.w| == |w| && IpValid(n.w, l3) && ValidSum(Sum(n.w, l4, |w|))
  {
    hide AddrAt, IpValid, ValidSum, ErrorOut, LoadPorts, Sum;
    assert !IsFragment(w, l3);
    if ErrorOut(m, w, len, l3, out, cfg.sctp).r.Ok? {
      ErrorStaysValid(m, w, len, l3, out, cfg.sctp);
    }
  }

  // ---------------------------------------------------------------- echo replies

  /** The exact condition for echo replies by itself: a correct reply leaves snat_v4_rev_nat with a correct ICMP
      checksum iff the mapping keeps the identifier, restores one that is not 0, or the message has other content. */
  lemma EchoReplyChecksum(m: Table, w: Words, len: nat, l3: nat, cfg: Config, target: NatTarget, env: Env,
                          tracked: Option<(Port, Port)>, v: View, end: nat, l4Len: nat)
    requires |w| == WordCount(len) && InBounds(len, l3, IP_WORDS) && IpValid(w, l3)
    requires ParseIn(w, len, l3, cfg, target, tracked) == Ok(v) && v.Flow? && v.key.nexthdr == IPPROTO_ICMP
    requires var l4 := l3 + HdrWords(w, l3); l4 + ICMP_ID < end <= |w| && L4Valid(w, l3, l4, end, l4Len)
    requires NatIn(m, w, len, l3, cfg, target, env, tracked).r.Ok?
    ensures var w' := NatIn(m, w, len, l3, cfg, target, env, tracked).w; var l4 := l3 + HdrWords(w, l3);
            && v.key in m && |w'| == |w|
            && (L4Valid(w', l3, l4, end, l4Len) <==>
                  m[v.key].port == v.key.dport || m[v.key].port != 0 || OtherContent(w, l4, end))
  {
    hide AddrAt, NatIn, IpValid, L4Valid, ParseIn, OtherContent;
    FlowHeader(w, l3);
    ParseDescribes(w, len, l3, cfg, target, tracked);
    ParsedFlow(w, len, l3, cfg, target, tracked, false);
    NatKeepsChecksums(m, w, len, l3, cfg, target, env, tracked, false, end, l4Len);
  }

  /** A correct echo reply from 10.0.0.1 to 10.0.0.2 with identifier 0x1234, sequence number 0 and no data. */
  const ECHO_REPLY: Words := [0x4500, 28, 0, 0, 0x4001, 0x66DF, 0x0A00, 1, 0x0A00, 2, 0, 0xEDCB, 0x1234, 0]
  const ECHO_KEY := Tuple(0x0A00_0002, 0x0A00_0001, 0x1234, 0, IPPROTO_ICMP, F_IN)

  /** The mapping restores the identifier 0: the whole message becomes zero, and its checksum wrong. */
  lemma EchoReplyExample(cfg: Config, target: NatTarget, env: Env, tracked: Option<(Port, Port)>)
    requires cfg.masquerade && env.mapFound && env.restoreOk
    ensures var m := map[ECHO_KEY := NatEntry(0, false, 0x0A00_0003, 0)];
            && |ECHO_REPLY| == WordCount(28) && IpValid(ECHO_REPLY, 0) && L4Valid(ECHO_REPLY, 0, 10, 14, 8)
            && var n := NatIn(m, ECHO_REPLY, 28, 0, cfg, target, env, tracked);
            n.r.Ok? && |n.w| == 14 && !L4Valid(n.w, 0, 10, 14, 8)
  {
    hide Amend, Diff, L4Valid, IpValid, AddrAt;
    var m: Table := map[ECHO_KEY := NatEntry(0, false, 0x0A00_0003, 0)];
    EchoReplyValid();
    EchoReplyParses(cfg, target, tracked);
    hide ParseIn, RewriteHeaders;
    var v := Flow(ECHO_KEY, ICMP_ID);
    EchoRewriteSucceeds(FlowRewrite(ECHO_REPLY, 0, v, m[ECHO_KEY]), cfg.sctp);
    EchoReplyChecksum(m, ECHO_REPLY, 28, 0, cfg, target, env, tracked, v, 14, 8);
  }

  lemma EchoRewriteSucceeds(c: Rewrite, sctp: bool)
    requires c.l3 == 0 && c.l4 == 10 && c.addrOff == IP_DADDR && c.portOff == ICMP_ID && c.proto == IPPROTO_ICMP
    requires c.innerDiff == 0
    ensures RewriteHeaders(ECHO_REPLY, 28, c, sctp).r.Ok?
  {
    hide Amend, Diff;
  }

  lemma EchoReplyParses(cfg: Config, target: NatTarget, tracked: Option<(Port, Port)>)
    requires cfg.masquerade
    ensures ParseIn(ECHO_REPLY, 28, 0, cfg, target, tracked) == Ok(Flow(ECHO_KEY, ICMP_ID))
  {
  }

  lemma EchoReplyValid()
    ensures IpValid(ECHO_REPLY, 0) && L4Valid(ECHO_REPLY, 0, 10, 14, 8)
  {
    assert Sum(ECHO_REPLY, 12, 14) == 0x1234 by { assert Sum(ECHO_REPLY, 13, 14) == 0; }
    assert Sum(ECHO_REPLY, 10, 14) == 0xFFFF by { assert Sum(ECHO_REPLY, 11, 14) == 0xFFFF; }
    assert Sum(ECHO_REPLY, 8, 10) == 0x0A02 by { assert Sum(ECHO_REPLY, 9, 10) == 2; }
    assert Sum(ECHO_REPLY, 6, 10) == 0x1403 by { assert Sum(ECHO_REPLY, 7, 10) == 0x0A03; }
    assert Sum(ECHO_REPLY, 4, 10) == 0xBAE3 by { assert Sum(ECHO_REPLY, 5, 10) == 0x7AE2; }
    assert Sum(ECHO_REPLY, 2, 10) == 0xBAE3 by { assert Sum(ECHO_REPLY, 3, 10) == 0xBAE3; }
    assert Sum(ECHO_REPLY, 0, 10) == 0xFFFF by { assert Sum(ECHO_REPLY, 1, 10) == 0xBAFF; }
  }
}
